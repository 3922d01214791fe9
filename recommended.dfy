/** GET /api/jobs/recommended: open jobs, one row per (job, category link), scored 10 when the
    link's category is one the caller prefers, ordered by score, company rating and posting date. */
module RecommendedRoute {
  import opened Wrappers
  import opened Text
  import opened Lists
  import opened Http
  import opened Schema
  import opened Auth
  import PreferencesRoute

  /** The selected columns of one result row. */
  datatype Recommended = Recommended(
    jobId: int, name: string, description: Option<string>, location: Option<string>, posted: int,
    companyName: string, companyRating: Option<int>, typeName: string, score: int)

  /** `job_is_active AND (job_closing_date IS NULL OR job_closing_date > NOW())`. */
  predicate Open(j: Job, now: int) {
    j.active && (j.closing.None? || j.closing.value > now)
  }

  /** The caller's preferences subquery holds a row for the category. */
  predicate Preferred(t: Tables, accountId: int, categoryId: int) {
    exists p :: p in t.preferences && p.categoryId == categoryId
      && PreferencesRoute.CallerPerson(t, accountId, p.personId)
  }

  function Score(t: Tables, accountId: int, categoryId: int): (s: int)
    ensures s == 10 || s == 0
    ensures s == 10 <==> Preferred(t, accountId, categoryId)
  {
    if Preferred(t, accountId, categoryId) then 10 else 0
  }

  /** The row a category link of job `j` (with company `c` and job type `jt`) contributes. */
  function LinkRow(t: Tables, accountId: int, j: Job, c: Company, jt: JobType)
    : JobCategoryLink -> Option<Recommended>
  {
    (l: JobCategoryLink) =>
      if l.jobId == j.id then
        Some(Recommended(j.id, j.name, j.description, j.location, j.posted, c.name, c.rating, jt.name,
                         Score(t, accountId, l.categoryId)))
      else None
  }

  /** The rows one job contributes: none unless it is open and its company and job type exist,
      else one per category link of the job. */
  function JobRows(t: Tables, accountId: int, now: int, j: Job): seq<Recommended> {
    match (CompanyById(t, j.companyId), JobTypeById(t, j.typeId))
    case (Some(c), Some(jt)) =>
      if !Open(j, now) then [] else Collect(t.jobCategories, LinkRow(t, accountId, j, c, jt))
    case _ => []
  }

  /** Row `x` stands for job `j` joined with its category link `l`. */
  predicate RowFor(t: Tables, accountId: int, now: int, x: Recommended, j: Job, l: JobCategoryLink) {
    && j in t.jobs && l in t.jobCategories
    && x.jobId == j.id && l.jobId == j.id && Open(j, now)
    && CompanyById(t, j.companyId).Some? && JobTypeById(t, j.typeId).Some?
    && (x.score == 10 <==> Preferred(t, accountId, l.categoryId))
    && (x.score == 0 <==> !Preferred(t, accountId, l.categoryId))
  }

  /** The joined rows before DISTINCT. */
  function Candidates(t: Tables, accountId: int, now: int): seq<Recommended> {
    FlatMap(t.jobs, (j: Job) => JobRows(t, accountId, now, j))
  }

  /** ORDER BY preference_score DESC, COALESCE(company_rating, 0) DESC, job_posted_date DESC. */
  function RankKey(r: Recommended): seq<int> {
    [-r.score, -r.companyRating.GetOr(0), -r.posted]
  }

  /** The `limit` query parameter after `|| '20'`, as the integer PostgreSQL reads from it;
      None when the text is not a number. */
  function Limit(limit: Option<string>): (r: Option<nat>)
    ensures !Truthy(limit) ==> r == Some(20)
    ensures Truthy(limit) ==> (r.Some? <==> IsDigits(limit.value))
    ensures Truthy(limit) && IsDigits(limit.value) ==> r == Some(DigitsValue(limit.value))
  {
    if !Truthy(limit) then Some(20)  // '20' read as a number
    else if IsDigits(limit.value) then Some(DigitsValue(limit.value))
    else None
  }

  /** SELECT DISTINCT ... ORDER BY ... LIMIT n over the candidates. */
  function Ranked(t: Tables, accountId: int, now: int, n: nat): (r: seq<Recommended>)
    ensures |r| <= n
    ensures SortedBy(r, RankKey)
    ensures forall x :: x in r ==> x in Candidates(t, accountId, now)
    ensures |Dedupe(Candidates(t, accountId, now))| <= n ==>
              forall x :: x in Candidates(t, accountId, now) ==> x in r
    ensures |r| == if n < |Dedupe(Candidates(t, accountId, now))| then n
                   else |Dedupe(Candidates(t, accountId, now))|
    ensures Distinct(r)
    ensures forall x, y :: x in Candidates(t, accountId, now) && x !in r && y in r ==> LexLe(RankKey(y), RankKey(x))
  {
    TopBy(Candidates(t, accountId, now), RankKey, n)
  }

  const Failed := "Failed to fetch recommended jobs"

  function Recommend(t: Tables, header: Option<string>, verify: Verifier, limit: Option<string>, now: int)
    : (r: Response<seq<Recommended>>)
    ensures Authenticate(header, verify).NoToken? ==> r == Fail(401, TokenRequired)
    ensures Authenticate(header, verify).BadToken? ==> r == Fail(500, Failed)
    ensures Authenticate(header, verify).Caller? ==>
      if Limit(limit).Some?
      then r == Success(200, Ranked(t, Authenticate(header, verify).payload.userId, now, Limit(limit).value))
      else r == Fail(500, Failed)
  {
    match Authenticate(header, verify)
    case NoToken => Fail(401, TokenRequired)
    case BadToken => Fail(500, Failed)
    case Caller(p) =>
      match Limit(limit)
      case None => Fail(500, Failed)
      case Some(n) => Success(200, Ranked(t, p.userId, now, n))
  }

  /** Every candidate row is for an open job whose company and job type exist and that has a
      category link; its score is 10 exactly when that link's category is one the caller prefers,
      else 0. */
  lemma CandidatesAreOpenJobs(t: Tables, accountId: int, now: int, x: Recommended)
    requires x in Candidates(t, accountId, now)
    ensures exists j, l :: RowFor(t, accountId, now, x, j, l)
  {
    var k :| 0 <= k < |t.jobs| && x in JobRows(t, accountId, now, t.jobs[k]);
    var j := t.jobs[k];
    var c, jt := CompanyById(t, j.companyId).value, JobTypeById(t, j.typeId).value;
    var f := LinkRow(t, accountId, j, c, jt);
    assert x in Collect(t.jobCategories, f);
    var m :| 0 <= m < |t.jobCategories| && f(t.jobCategories[m]) == Some(x);
    var l := t.jobCategories[m];
    assert RowFor(t, accountId, now, x, j, l);
  }

  /** Every open job with its company, job type and a category link yields a candidate row. */
  lemma OpenJobsAreCandidates(t: Tables, accountId: int, now: int, j: Job, l: JobCategoryLink)
    requires j in t.jobs && l in t.jobCategories && l.jobId == j.id && Open(j, now)
    requires CompanyById(t, j.companyId).Some? && JobTypeById(t, j.typeId).Some?
    ensures exists x :: x in Candidates(t, accountId, now) && RowFor(t, accountId, now, x, j, l)
  {
    var c, jt := CompanyById(t, j.companyId).value, JobTypeById(t, j.typeId).value;
    var f := LinkRow(t, accountId, j, c, jt);
    var x := f(l).value;
    var m :| 0 <= m < |t.jobCategories| && t.jobCategories[m] == l;
    assert x in Collect(t.jobCategories, f);
    assert x in JobRows(t, accountId, now, j);
    var k :| 0 <= k < |t.jobs| && t.jobs[k] == j;
    assert x in Candidates(t, accountId, now);
    assert RowFor(t, accountId, now, x, j, l);
  }

  /** Preferred rows come first: scores never increase down the list. */
  lemma ScoresDescend(t: Tables, accountId: int, now: int, n: nat, i: nat, j: nat)
    requires i < j < |Ranked(t, accountId, now, n)|
    ensures Ranked(t, accountId, now, n)[i].score >= Ranked(t, accountId, now, n)[j].score
  {
    SortedFirstComponent(Ranked(t, accountId, now, n), RankKey, i, j);
  }

  /** Among rows of equal score, a better-rated company (a missing rating counting as 0) comes first. */
  lemma RatingsDescendWithinScore(t: Tables, accountId: int, now: int, n: nat, i: nat, j: nat)
    requires i < j < |Ranked(t, accountId, now, n)|
    requires Ranked(t, accountId, now, n)[i].score == Ranked(t, accountId, now, n)[j].score
    ensures Ranked(t, accountId, now, n)[i].companyRating.GetOr(0)
            >= Ranked(t, accountId, now, n)[j].companyRating.GetOr(0)
  {
    SortedSecondComponent(Ranked(t, accountId, now, n), RankKey, i, j);
  }

  /** Without a `limit` parameter at most 20 rows come back. */
  lemma AtMostTwentyByDefault(t: Tables, header: Option<string>, verify: Verifier, now: int)
    requires Recommend(t, header, verify, None, now).Success?
    ensures |Recommend(t, header, verify, None, now).body| <= 20
  {
  }
}
