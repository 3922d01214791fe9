/** GET /api/companies: every company with its address, job and rating counts, average rating and,
    for a signed-in job seeker, whether they follow it; ordered by company name. */
module CompaniesRoute {
  import opened Wrappers
  import opened Lists
  import opened Schema
  import opened Auth
  import FollowRoute

  type Positive = n: int | n >= 1 witness 1

  /** An exact rational number `num / den`: PostgreSQL's numeric average. */
  datatype Ratio = Ratio(num: int, den: Positive)

  predicate SameValue(a: Ratio, b: Ratio) {
    a.num * b.den == b.num * a.den
  }

  /** One listed company. */
  datatype Listed = Listed(
    id: int, name: string, email: string, phone: Option<string>, website: Option<string>,
    description: Option<string>, premise: Option<string>, street: Option<string>,
    barangay: Option<string>, city: Option<string>,
    activeJobs: nat, totalJobs: nat, rating: Ratio, totalRatings: nat, isFollowed: bool)

  /** The job seeker id the listing marks follows for: set only when the header carries a token
      that verifies, the account is a job seeker and the id is truthy. Any other caller is listed
      anonymously (a token that fails to verify is ignored). */
  function Viewer(t: Tables, header: Option<string>, verify: Verifier): (r: Option<int>)
    ensures r.Some? <==>
      && Authenticate(header, verify).Caller?
      && SeekerOf(t, Authenticate(header, verify).payload.userId).Some?
      && SeekerOf(t, Authenticate(header, verify).payload.userId).value.id != 0
    ensures r.Some? ==> r.value == SeekerOf(t, Authenticate(header, verify).payload.userId).value.id
  {
    var session := Authenticate(header, verify);
    if session.Caller? && SeekerOf(t, session.payload.userId).Some?
       && SeekerOf(t, session.payload.userId).value.id != 0
    then Some(SeekerOf(t, session.payload.userId).value.id)
    else None
  }

  function JobOf(companyId: int): Job -> bool {
    (j: Job) => j.companyId == companyId
  }

  function RatingOf(companyId: int): CompanyRating -> bool {
    (r: CompanyRating) => r.companyId == companyId
  }

  predicate IsActive(j: Job) {
    j.active
  }

  function JobsOf(t: Tables, companyId: int): seq<Job> {
    Filter(t.jobs, JobOf(companyId))
  }

  function RatingsOf(t: Tables, companyId: int): seq<CompanyRating> {
    Filter(t.companyRatings, RatingOf(companyId))
  }

  function Sum(rs: seq<CompanyRating>): int {
    if |rs| == 0 then 0 else rs[0].rating + Sum(rs[1..])
  }

  /** The number of active jobs, of jobs and of ratings of the company, and its average rating
      (0 when it has no ratings). */
  datatype Counts = Counts(activeJobs: nat, totalJobs: nat, totalRatings: nat, average: Ratio)

  /** The counts each company's row is meant to show: every job and every rating counted once. */
  function CompanyCounts(t: Tables, companyId: int): (r: Counts)
    ensures r.activeJobs <= r.totalJobs == |JobsOf(t, companyId)|
    ensures r.totalRatings == |RatingsOf(t, companyId)|
    ensures r.totalRatings == 0 ==> r.average == Ratio(0, 1)
  {
    var jobs, ratings := JobsOf(t, companyId), RatingsOf(t, companyId);
    Counts(|Filter(jobs, IsActive)|, |jobs|, |ratings|,
           if |ratings| == 0 then Ratio(0, 1) else Ratio(Sum(ratings), |ratings|))
  }

  // ---- The grouped LEFT JOIN as the query writes it ----

  /** One row of `Company LEFT JOIN Job LEFT JOIN Company_ratings` for a fixed company. */
  datatype Joined = Joined(job: Option<Job>, rating: Option<CompanyRating>)

  /** LEFT JOIN: the matching rows, or a single row of nulls when nothing matches. */
  function OrNull<T>(s: seq<T>): (r: seq<Option<T>>)
    ensures |r| == if |s| == 0 then 1 else |s|
  {
    if |s| == 0 then [None] else seq(|s|, k requires 0 <= k < |s| => Some(s[k]))
  }

  /** Job `j` paired with every rating row. */
  function WithJob(j: Option<Job>, rs: seq<Option<CompanyRating>>): (r: seq<Joined>)
    ensures |r| == |rs|
  {
    if |rs| == 0 then [] else [Joined(j, rs[0])] + WithJob(j, rs[1..])
  }

  /** Every job row paired with every rating row. */
  function Cross(js: seq<Option<Job>>, rs: seq<Option<CompanyRating>>): seq<Joined> {
    if |js| == 0 then [] else WithJob(js[0], rs) + Cross(js[1..], rs)
  }

  function JoinedRows(t: Tables, companyId: int): seq<Joined> {
    Cross(OrNull(JobsOf(t, companyId)), OrNull(RatingsOf(t, companyId)))
  }

  /** The test of a joined row by its job part alone. */
  function JobTest(q: Option<Job> -> bool): Joined -> bool {
    (x: Joined) => q(x.job)
  }

  predicate SomeJob(j: Option<Job>) {
    j.Some?
  }

  predicate SomeActiveJob(j: Option<Job>) {
    j.Some? && j.value.active
  }

  predicate HasRating(x: Joined) {
    x.rating.Some?
  }

  /** SUM of the non-null ratings of the joined rows. */
  function JoinedSum(rows: seq<Joined>): int {
    if |rows| == 0 then 0
    else (if rows[0].rating.Some? then rows[0].rating.value.rating else 0) + JoinedSum(rows[1..])
  }

  /** `COUNT(j.job_id) FILTER (WHERE j.job_is_active)`, `COUNT(j.job_id)`, `COUNT(cr.rating_id)`
      and `COALESCE(AVG(cr.rating), 0)` over the joined rows of one company. */
  function JoinedCounts(t: Tables, companyId: int): Counts {
    var rows := JoinedRows(t, companyId);
    var n := |Filter(rows, HasRating)|;
    Counts(|Filter(rows, JobTest(SomeActiveJob))|, |Filter(rows, JobTest(SomeJob))|, n,
           if n == 0 then Ratio(0, 1) else Ratio(JoinedSum(rows), n))
  }

  // ---- How the join multiplies the rows ----

  lemma {:induction false} JoinedSumAppend(a: seq<Joined>, b: seq<Joined>)
    ensures JoinedSum(a + b) == JoinedSum(a) + JoinedSum(b)
  {
    if |a| == 0 {
      assert a + b == b;
    } else {
      assert (a + b)[1..] == a[1..] + b;
      JoinedSumAppend(a[1..], b);
    }
  }

  /** The rating rows of the join with one job: the ratings themselves, whatever the job. */
  lemma {:induction false} WithJobRatings(j: Option<Job>, rs: seq<CompanyRating>)
    ensures |Filter(WithJob(j, OrNull(rs)), HasRating)| == |rs|
    ensures JoinedSum(WithJob(j, OrNull(rs))) == Sum(rs)
  {
    if |rs| > 0 {
      WithJobSome(j, rs);
    }
  }

  lemma {:induction false} WithJobSome(j: Option<Job>, rs: seq<CompanyRating>)
    requires |rs| > 0
    ensures |Filter(WithJob(j, OrNull(rs)), HasRating)| == |rs|
    ensures JoinedSum(WithJob(j, OrNull(rs))) == Sum(rs)
  {
    var rows := WithJob(j, OrNull(rs));
    if |rs| == 1 {
      assert rows == [Joined(j, Some(rs[0]))];
    } else {
      assert OrNull(rs)[1..] == OrNull(rs[1..]);
      WithJobSome(j, rs[1..]);
    }
  }

  lemma MulSucc(a: int, n: int)
    ensures (a + 1) * n == n + a * n
  {
  }

  /** Each job row meets every rating row. */
  lemma CrossRatings(js: seq<Option<Job>>, rs: seq<CompanyRating>)
    ensures |Filter(Cross(js, OrNull(rs)), HasRating)| == |js| * |rs|
    ensures JoinedSum(Cross(js, OrNull(rs))) == |js| * Sum(rs)
  {
    CrossRatingCount(js, rs);
    CrossRatingSum(js, rs);
  }

  lemma {:induction false} CrossRatingCount(js: seq<Option<Job>>, rs: seq<CompanyRating>)
    ensures |Filter(Cross(js, OrNull(rs)), HasRating)| == |js| * |rs|
  {
    if |js| > 0 {
      var head, rest := WithJob(js[0], OrNull(rs)), Cross(js[1..], OrNull(rs));
      assert Cross(js, OrNull(rs)) == head + rest;
      FilterAppend(head, rest, HasRating);
      WithJobRatings(js[0], rs);
      CrossRatingCount(js[1..], rs);
      MulSucc(|js[1..]|, |rs|);
    }
  }

  lemma {:induction false} CrossRatingSum(js: seq<Option<Job>>, rs: seq<CompanyRating>)
    ensures JoinedSum(Cross(js, OrNull(rs))) == |js| * Sum(rs)
  {
    if |js| > 0 {
      var head, rest := WithJob(js[0], OrNull(rs)), Cross(js[1..], OrNull(rs));
      assert Cross(js, OrNull(rs)) == head + rest;
      JoinedSumAppend(head, rest);
      WithJobRatings(js[0], rs);
      CrossRatingSum(js[1..], rs);
      var m, total := |js[1..]|, Sum(rs);
      assert JoinedSum(head + rest) == total + m * total;
      MulSucc(m, total);
      assert |js| == m + 1;
    }
  }

  /** A job row meets every rating row: all of them carry the job, or none. */
  lemma WithJobJobs(j: Option<Job>, rs: seq<Option<CompanyRating>>, q: Option<Job> -> bool)
    ensures |Filter(WithJob(j, rs), JobTest(q))| == if q(j) then |rs| else 0
  {
    var rows := WithJob(j, rs);
    WithJobShape(j, rs);
    if q(j) {
      FilterAll(rows, JobTest(q));
    } else {
      FilterNone(rows, JobTest(q));
    }
  }

  lemma {:induction false} WithJobShape(j: Option<Job>, rs: seq<Option<CompanyRating>>)
    ensures forall k :: 0 <= k < |rs| ==> WithJob(j, rs)[k] == Joined(j, rs[k])
  {
    if |rs| > 0 {
      WithJobShape(j, rs[1..]);
    }
  }

  /** Each job row is repeated once per rating row. */
  lemma {:induction false} CrossJobs(js: seq<Option<Job>>, rs: seq<Option<CompanyRating>>, q: Option<Job> -> bool)
    ensures |Filter(Cross(js, rs), JobTest(q))| == |Filter(js, q)| * |rs|
  {
    if |js| > 0 {
      CrossJobs(js[1..], rs, q);
      CrossJobsStep(js, rs, q);
      FilterHead(js, q);
      var a, n := |Filter(js[1..], q)|, |rs|;
      if q(js[0]) {
        MulSucc(a, n);
        assert |Filter(js, q)| == a + 1;
      } else {
        assert |Filter(js, q)| == a;
      }
    }
  }

  lemma CrossJobsStep(js: seq<Option<Job>>, rs: seq<Option<CompanyRating>>, q: Option<Job> -> bool)
    requires |js| > 0
    ensures |Filter(Cross(js, rs), JobTest(q))|
            == (if q(js[0]) then |rs| else 0) + |Filter(Cross(js[1..], rs), JobTest(q))|
  {
    FilterAppend(WithJob(js[0], rs), Cross(js[1..], rs), JobTest(q));
    WithJobJobs(js[0], rs, q);
  }

  lemma FilterHead<T(!new)>(s: seq<T>, p: T -> bool)
    requires |s| > 0
    ensures |Filter(s, p)| == (if p(s[0]) then 1 else 0) + |Filter(s[1..], p)|
  {
  }

  lemma {:induction false} OrNullJobs(s: seq<Job>, q: Option<Job> -> bool, p: Job -> bool)
    requires !q(None)
    requires forall j :: q(Some(j)) == p(j)
    ensures |Filter(OrNull(s), q)| == |Filter(s, p)|
  {
    if |s| == 0 {
      assert Filter(OrNull(s), q) == Filter([None], q);
    } else {
      OrNullSome(s, q, p);
    }
  }

  lemma {:induction false} OrNullSome(s: seq<Job>, q: Option<Job> -> bool, p: Job -> bool)
    requires |s| > 0
    requires forall j :: q(Some(j)) == p(j)
    ensures |Filter(OrNull(s), q)| == |Filter(s, p)|
  {
    if |s| > 1 {
      assert OrNull(s)[1..] == OrNull(s[1..]);
      OrNullSome(s[1..], q, p);
    } else {
      assert OrNull(s) == [Some(s[0])];
    }
  }

  /** The join repeats every job once per rating and every rating once per job: the counts the
      query returns are the intended ones multiplied by that fan-out, and the average is the
      intended one (the same value, the fraction scaled). */
  lemma JoinMultipliesCounts(t: Tables, companyId: int)
    ensures var counts, joined := CompanyCounts(t, companyId), JoinedCounts(t, companyId);
      var jobFanOut, ratingFanOut := if counts.totalRatings == 0 then 1 else counts.totalRatings,
                                     if counts.totalJobs == 0 then 1 else counts.totalJobs;
      && joined.activeJobs == counts.activeJobs * jobFanOut
      && joined.totalJobs == counts.totalJobs * jobFanOut
      && joined.totalRatings == counts.totalRatings * ratingFanOut
      && SameValue(joined.average, counts.average)
  {
    JoinedJobCounts(t, companyId);
    JoinedRatingCounts(t, companyId);
  }

  lemma JoinedJobCounts(t: Tables, companyId: int)
    ensures var counts, rows := CompanyCounts(t, companyId), JoinedRows(t, companyId);
      var jobFanOut := if counts.totalRatings == 0 then 1 else counts.totalRatings;
      && |Filter(rows, JobTest(SomeActiveJob))| == counts.activeJobs * jobFanOut
      && |Filter(rows, JobTest(SomeJob))| == counts.totalJobs * jobFanOut
  {
    var jobs, ratings := JobsOf(t, companyId), RatingsOf(t, companyId);
    var js, rs := OrNull(jobs), OrNull(ratings);
    CrossJobs(js, rs, SomeJob);
    CrossJobs(js, rs, SomeActiveJob);
    OrNullJobs(jobs, SomeJob, (j: Job) => true);
    FilterAll(jobs, (j: Job) => true);
    OrNullJobs(jobs, SomeActiveJob, IsActive);
  }

  lemma JoinedRatingCounts(t: Tables, companyId: int)
    ensures var counts, joined := CompanyCounts(t, companyId), JoinedCounts(t, companyId);
      var ratingFanOut := if counts.totalJobs == 0 then 1 else counts.totalJobs;
      && joined.totalRatings == counts.totalRatings * ratingFanOut
      && SameValue(joined.average, counts.average)
  {
    var jobs, ratings := JobsOf(t, companyId), RatingsOf(t, companyId);
    var js := OrNull(jobs);
    var rows := JoinedRows(t, companyId);
    if |ratings| == 0 {
      assert OrNull(ratings) == [None];
      CrossNoRatings(js);
      assert JoinedCounts(t, companyId).totalRatings == 0;
    } else {
      CrossRatings(js, ratings);
      var k, n, total := |js|, |ratings|, Sum(ratings);
      ScaledSameValue(k, n, total);
      assert k == if |jobs| == 0 then 1 else |jobs|;
    }
  }

  /** The k-fold sum over the k-fold count is the same average. */
  lemma ScaledSameValue(k: int, n: int, total: int)
    requires k >= 1 && n >= 1
    ensures k * n >= 1 && k * n == n * k
    ensures SameValue(Ratio(k * total, k * n), Ratio(total, n))
  {
    MulPositive(k, n);
    MulSwap(k, n, total);
  }

  lemma MulPositive(k: int, n: int)
    requires k >= 1 && n >= 1
    ensures k * n >= 1
  {
  }

  lemma MulSwap(k: int, n: int, total: int)
    ensures (k * total) * n == total * (k * n)
  {
  }

  lemma {:induction false} CrossNoRatings(js: seq<Option<Job>>)
    ensures Filter(Cross(js, [None]), HasRating) == []
  {
    if |js| > 0 {
      FilterAppend(WithJob(js[0], [None]), Cross(js[1..], [None]), HasRating);
      CrossNoRatings(js[1..]);
    }
  }

  // ---- The rating shown ----

  /** `avg_rating || company_rating || 0` as written: the average arrives from the driver as
      numeric text, and every such text, "0" included, is truthy, so the stored rating is never
      reached. */
  function ListedRatingAsWritten(counts: Counts, stored: Option<int>): Ratio {
    counts.average
  }

  /** The rating the expression is meant to show: the average of the ratings when it is not 0,
      else the rating stored on the company when that is set and not 0, else 0. */
  function ListedRating(counts: Counts, stored: Option<int>): (r: Ratio)
    ensures counts.average.num != 0 ==> r == counts.average
    ensures counts.average.num == 0 && TruthyId(stored) ==> SameValue(r, Ratio(stored.value, 1))
    ensures counts.average.num == 0 && !TruthyId(stored) ==> r.num == 0
  {
    if counts.average.num != 0 then counts.average
    else if TruthyId(stored) then Ratio(stored.value, 1)
    else Ratio(0, 1)
  }

  /** A company with a stored rating of 4 and no rating rows is listed with 0 as written, and with
      its stored 4 as intended. */
  lemma StoredRatingIgnoredAsWritten()
    ensures var counts := Counts(0, 0, 0, Ratio(0, 1));
      && ListedRatingAsWritten(counts, Some(4)) == Ratio(0, 1)
      && ListedRating(counts, Some(4)) == Ratio(4, 1)
  {
  }

  /** One company with two active jobs and three ratings. */
  function FanOutTables(): Tables {
    Tables([], [], [], [], [], [], [],
           [Company(1, "Acme", "hr@acme.test", None, None, None, 1, None)],
           FanOutRatings(), [], [], FanOutJobs(), [], [], [], [], [])
  }

  function FanOutJobs(): seq<Job> {
    [Job(1, "A", None, None, 1, 1, true, None, 0), Job(2, "B", None, None, 1, 1, true, None, 0)]
  }

  function FanOutRatings(): seq<CompanyRating> {
    [CompanyRating(1, 1, 5), CompanyRating(2, 1, 4), CompanyRating(3, 1, 3)]
  }

  /** That company is listed with six jobs and six ratings as written, against two and three. */
  lemma FanOutExample()
    ensures CompanyCounts(FanOutTables(), 1).totalJobs == 2
    ensures CompanyCounts(FanOutTables(), 1).totalRatings == 3
    ensures JoinedCounts(FanOutTables(), 1).totalJobs == 6
    ensures JoinedCounts(FanOutTables(), 1).totalRatings == 6
  {
    FanOutIntended();
    var t := FanOutTables();
    JoinedJobCounts(t, 1);
    JoinedRatingCounts(t, 1);
  }

  lemma FanOutIntended()
    ensures CompanyCounts(FanOutTables(), 1).totalJobs == 2
    ensures CompanyCounts(FanOutTables(), 1).totalRatings == 3
  {
    var jobs, ratings := FanOutJobs(), FanOutRatings();
    assert forall k :: 0 <= k < |jobs| ==> JobOf(1)(jobs[k]);
    FilterAll(jobs, JobOf(1));
    assert forall k :: 0 <= k < |ratings| ==> RatingOf(1)(ratings[k]);
    FilterAll(ratings, RatingOf(1));
  }

  // ---- The listing ----

  function AddressField(a: Option<Address>, f: Address -> string): Option<string> {
    if a.Some? then Some(f(a.value)) else None
  }

  /** The company's row, not followed. */
  function Row(t: Tables, c: Company): (x: Listed)
    ensures x.id == c.id && x.name == c.name && !x.isFollowed
    ensures x.activeJobs == CompanyCounts(t, c.id).activeJobs
    ensures x.totalJobs == CompanyCounts(t, c.id).totalJobs
    ensures x.totalRatings == CompanyCounts(t, c.id).totalRatings
    ensures x.rating == ListedRating(CompanyCounts(t, c.id), c.rating)
  {
    var counts := CompanyCounts(t, c.id);
    var a := AddressById(t, c.addressId);
    Listed(c.id, c.name, c.email, c.phone, c.website, c.description,
           AddressField(a, (x: Address) => x.premise), AddressField(a, (x: Address) => x.street),
           AddressField(a, (x: Address) => x.barangay), AddressField(a, (x: Address) => x.city),
           counts.activeJobs, counts.totalJobs, ListedRating(counts, c.rating), counts.totalRatings, false)
  }

  /** The rows one company groups into: one when nobody is viewing or the viewer does not follow
      it, else one per follow row of the viewer (the grouping includes `fc.follow_id`). */
  function CompanyRows(t: Tables, c: Company, viewer: Option<int>): seq<Listed> {
    var row := Row(t, c);
    if viewer.None? then [row]
    else
      var follows := Filter(t.follows, FollowRoute.FollowPair(c.id, viewer.value));
      if |follows| == 0 then [row] else seq(|follows|, _ => row.(isFollowed := true))
  }

  function NameKey(x: Listed): seq<int> {
    CharCodes(x.name)
  }

  function Grouped(t: Tables, viewer: Option<int>): seq<Listed> {
    FlatMap(t.companies, (c: Company) => CompanyRows(t, c, viewer))
  }

  /** The companies listing, with the corrected per-company counts and rating of `Row`
      (CompanyCounts, ListedRating) in place of the fanned-out counts and the `avg_rating || …`
      value the route computes as written (JoinedCounts, ListedRatingAsWritten). */
  function Companies(t: Tables, header: Option<string>, verify: Verifier): (r: seq<Listed>)
    ensures SortedBy(r, NameKey)
    ensures multiset(r) == multiset(Grouped(t, Viewer(t, header, verify)))
  {
    SortBy(Grouped(t, Viewer(t, header, verify)), NameKey)
  }

  /** The follow flag of a company's rows says whether the viewer follows it. */
  lemma FollowFlag(t: Tables, c: Company, viewer: Option<int>, x: Listed)
    requires x in CompanyRows(t, c, viewer)
    ensures x == Row(t, c).(isFollowed := x.isFollowed)
    ensures x.isFollowed <==>
      viewer.Some? && exists f :: f in t.follows && f.companyId == c.id && f.seekerId == viewer.value
  {
    if viewer.Some? {
      var follows := Filter(t.follows, FollowRoute.FollowPair(c.id, viewer.value));
      if |follows| == 0 {
        forall f | f in t.follows ensures !(f.companyId == c.id && f.seekerId == viewer.value) {
          assert f !in follows;
        }
      } else {
        assert follows[0] in t.follows;
      }
    }
  }

  /** Every listed row is one company's: its counts are that company's, it shows no more active
      jobs than jobs, and it is marked followed exactly when the viewer follows that company. */
  lemma ListedRowIsCompanys(t: Tables, header: Option<string>, verify: Verifier, x: Listed)
    requires x in Companies(t, header, verify)
    ensures exists c :: c in t.companies && x == Row(t, c).(isFollowed := x.isFollowed)
    ensures x.activeJobs <= x.totalJobs
    ensures var viewer := Viewer(t, header, verify);
      x.isFollowed <==> viewer.Some? && exists f :: f in t.follows && f.companyId == x.id && f.seekerId == viewer.value
  {
    var viewer := Viewer(t, header, verify);
    var c := ListedCompany(t, header, verify, x);
    FollowFlag(t, c, viewer, x);
  }

  /** The company whose rows a listed row comes from. */
  lemma ListedCompany(t: Tables, header: Option<string>, verify: Verifier, x: Listed) returns (c: Company)
    requires x in Companies(t, header, verify)
    ensures c in t.companies && x in CompanyRows(t, c, Viewer(t, header, verify))
  {
    var listed, grouped := Companies(t, header, verify), Grouped(t, Viewer(t, header, verify));
    assert x in multiset(listed);
    assert x in grouped;
    var k :| 0 <= k < |t.companies| && x in CompanyRows(t, t.companies[k], Viewer(t, header, verify));
    c := t.companies[k];
  }

  /** Every company of the table is listed. */
  lemma EveryCompanyListed(t: Tables, header: Option<string>, verify: Verifier, c: Company)
    requires c in t.companies
    ensures exists x :: x in Companies(t, header, verify) && x.id == c.id && x.name == c.name
  {
    var viewer := Viewer(t, header, verify);
    var rows := CompanyRows(t, c, viewer);
    assert rows[0] in rows;
    var k :| 0 <= k < |t.companies| && t.companies[k] == c;
    assert rows[0] in Grouped(t, viewer);
    assert rows[0] in multiset(Companies(t, header, verify));
  }

  /** While no job seeker follows a company twice (which the follow toggle keeps), the listing
      has exactly one row per company. */
  lemma OneRowPerCompany(t: Tables, header: Option<string>, verify: Verifier)
    requires FollowRoute.OneFollowPerPair(t.follows)
    ensures |Companies(t, header, verify)| == |t.companies|
  {
    var viewer := Viewer(t, header, verify);
    assert |Companies(t, header, verify)| == |multiset(Grouped(t, viewer))|;
    GroupedLength(t, viewer, t.companies);
  }

  lemma {:induction false} GroupedLength(t: Tables, viewer: Option<int>, cs: seq<Company>)
    requires FollowRoute.OneFollowPerPair(t.follows)
    ensures |FlatMap(cs, (c: Company) => CompanyRows(t, c, viewer))| == |cs|
  {
    if |cs| > 0 {
      OneFollowRow(t, cs[0], viewer);
      GroupedLength(t, viewer, cs[1..]);
    }
  }

  lemma OneFollowRow(t: Tables, c: Company, viewer: Option<int>)
    requires FollowRoute.OneFollowPerPair(t.follows)
    ensures |CompanyRows(t, c, viewer)| == 1
  {
    if viewer.Some? {
      AtMostOneFollow(t.follows, c.id, viewer.value);
    }
  }

  lemma {:induction false} AtMostOneFollow(rows: seq<Follow>, companyId: int, seekerId: int)
    requires FollowRoute.OneFollowPerPair(rows)
    ensures |Filter(rows, FollowRoute.FollowPair(companyId, seekerId))| <= 1
  {
    if |rows| > 0 {
      var p := FollowRoute.FollowPair(companyId, seekerId);
      assert FollowRoute.OneFollowPerPair(rows[1..]) by {
        forall i, j | 0 <= i < j < |rows| - 1
          ensures !(rows[1..][i].companyId == rows[1..][j].companyId && rows[1..][i].seekerId == rows[1..][j].seekerId)
        {
          assert rows[1..][i] == rows[i + 1] && rows[1..][j] == rows[j + 1];
        }
      }
      AtMostOneFollow(rows[1..], companyId, seekerId);
      if p(rows[0]) {
        forall k | 0 <= k < |rows[1..]| ensures !p(rows[1..][k]) {
          assert rows[1..][k] == rows[k + 1];
        }
        FilterNone(rows[1..], p);
      }
    }
  }
}
