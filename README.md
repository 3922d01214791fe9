# go-job in Dafny

go-job is a Next.js job board. Job seekers register, verify their e-mail, choose preferred job categories, apply to jobs and follow and rate companies. Employees of a company post jobs, switch postings on and off and answer applications. This project models the board's server routes and the logic of its main pages and components, and proves properties about them.

The database is a value of type `Schema.Tables`: one sequence of rows per PostgreSQL table used by the routes. A new SERIAL id is one more than the largest id in the table (`Schema.NextId`). The state lives in a `Schema.Database` object with one field, `t`.

Each route that writes is modelled in two parts:

- a function from the tables before the request to the response and the tables after it (`RegisterRoute.Register`, `ApplyRoute.Apply`, …);
- a `Post` method on the `Database` whose `ensures` ties the method to that function.

Read-only routes are functions over `Tables`.

A request's `Authorization` header goes through `Auth.Authenticate`:

- a missing header, or one without the `Bearer ` prefix, is `NoToken`, which every route answers with 401;
- a token the verifier does not accept is `BadToken`, which lands in the route's `catch` block;
- an accepted token is `Caller(payload)`.

The verifier is a map from token to payload. JWT signing and expiry happen inside it.

The pages and components are modelled in two ways:

- state a component updates in place (the profile page, the rating widget, the applicant modal, the companies page) is a `class` whose methods change its fields;
- rendering and filtering decisions are functions.

The answer of a `fetch` enters a method as a parameter of type `Option<Response<…>>`, where `None` means the request threw. The page-entry guard that several pages share is `Landing.Guard`:

- no token, or a failed `/api/auth/me` call, goes to the login page;
- a user of the wrong kind is redirected elsewhere;
- anyone else sees the page.

## Model

| member | source | states |
|---|---|---|
| Auth.BearerToken | app/api/jobs/apply/route.js:15-22 | a token is read exactly when the header is present and starts with `Bearer ` |
| Auth.BearerTokenIsSecondWord | app/api/auth/me/route.js:22 | the token read is the second space-separated word of the header (`split(' ')[1]`) |
| Auth.Authenticate | app/api/jobs/apply/route.js:15-23 | no token, token rejected by the verifier, or the payload the verifier maps the token to, each exactly in its own case |
| Text.Split | app/api/auth/me/route.js:22 | the pieces contain no separator and the first is the text before the first separator |
| Text.JoinSplit | app/api/auth/me/route.js:22 | joining the pieces of a split with the separator gives back the original text |
| Text.JsSlice | app/jobseeker/dashboard/page.js:77 | `Array.prototype.slice`: a negative bound counts back from the end, both bounds are clamped to the length, and the result is the run from the start bound up to the end bound (empty when the end is not past the start); for non-negative bounds its length is the clamped difference |
| Text.Prefix | components/JobCard.js:68 | `substring(0, n)`: a prefix of the text, the whole text when it is at most n long, exactly n characters otherwise |
| Text.Lower | app/companies/page.js:100-105 | the result is the input up to ASCII letter case and holds no capital letter |
| Text.LowerIgnoresCase | app/companies/page.js:100-105 | two texts lower to the same text exactly when they differ only in ASCII case |
| Text.BeforeFirst | components/JobCard.js:73-82 | `split(sep)[0]`: a prefix of the text, followed by the separator or the end, with no separator starting inside it |
| Text.DecimalRoundTrip | app/api/auth/register/route.js:6-8 | reading back the decimal digits of a number gives the number |
| Text.DecimalLength | app/api/auth/register/route.js:6-8 | a number from 10^(w-1) to 10^w - 1 is written with exactly w digits |
| Lists.SortBy | app/api/employee/job-history/route.js:54 | `ORDER BY`: the result is sorted by the key and is a permutation of the input |
| Lists.Dedupe | app/api/jobs/recommended/route.js:29 | `SELECT DISTINCT`: every input row appears exactly once, and nothing else appears |
| Schema.NextId | app/api/jobs/apply/route.js:70-80 | a SERIAL id is positive and larger than every id already in the table |
| Schema.FindOrCreateNationality | app/api/auth/register/route.js:184-196 | the nationality is found by name, or appended with an id no existing row has; either way the returned id names it |
| Schema.FindOrCreateNationalityById | app/api/auth/register/route.js:184-196 | with distinct nationality ids, the ids stay distinct and looking the returned id up finds the named row |
| RegisterRoute.GenerateVerificationCode | app/api/auth/register/route.js:6-8 | `floor(100000 + random*900000)` printed: six digits whose value lies in 100000..999999 |
| RegisterRoute.IntegerLiteral | app/api/auth/register/route.js:101-104 | the text PostgreSQL reads as an integer: digits, optionally after one sign, with the value the digits denote |
| RegisterRoute.ReadCompanyId | app/api/auth/register/route.js:101-104 | binding the form's text to `company_id = $1`: a number within 32 bits, otherwise error 22P02 for text that is not an integer and 22003 for one out of range |
| RegisterRoute.ReadCompanyIdRoundTrip | app/api/auth/register/route.js:101-104 | the decimal id a company registration reports is read back as that id |
| RegisterRoute.Precheck | app/api/auth/register/route.js:51-113 | the request passes exactly when it is acceptable; otherwise the answer of the first failed check, in source order: required fields, password mismatch, short password, missing company id, missing company name or e-mail, unknown user type, a company-id text the existence query cannot read (the catch block's 500 with PostgreSQL's message), unknown company (400, which is what the text "0" gets); every answer is 400 except that 500 |
| RegisterRoute.ErrorStatus | app/api/auth/register/route.js:295-320 | pg error 23505 gives 409, 23503 and 23502 give 400, every other code gives 500 |
| RegisterRoute.EnsureAccountTypes | app/api/auth/register/route.js:173-177 | afterwards account types 1 and 2 exist, and the rows already present are kept as a prefix |
| RegisterRoute.UpsertCodeEffect | app/api/auth/register/route.js:256-271 | `ON CONFLICT (account_id) DO UPDATE`: the account has exactly the new code, other accounts' codes are unchanged, and one code per account holds |
| RegisterRoute.Register | app/api/auth/register/route.js:35-293 | succeeds with 201 exactly when the checks pass, no fault occurs and the company e-mail (or the account's e-mail/username) is new; an unacceptable request gets the pre-check's answer, 400 unless the company-id text is unreadable, a stored company e-mail the 409 "Company with this email already exists", stored account credentials the 409 "User with this email or username already exists"; a failure leaves the tables unchanged |
| RegisterRoute.RegisterCompanyEffect | app/api/auth/register/route.js:118-155 | a company registration appends one address and one company with a fresh id, name, e-mail and that address, and nothing else |
| RegisterRoute.InsertAccountRows | app/api/auth/register/route.js:184-253 | an account registration appends one address with a fresh id whose four fields are the request's or 'N/A', one person, one unverified account with a fresh id, and the role row; only the tables it names change |
| RegisterRoute.InsertAccountCode | app/api/auth/register/route.js:256-271 | the new account gets the generated code as its only code |
| RegisterRoute.RegisterAccountIsInsert | app/api/auth/register/route.js:159-271 | a successful account registration had its required fields and, for an employee, an existing company, and its tables are those of the insert |
| RegisterRoute.RegisterAccountEffect | app/api/auth/register/route.js:159-271 | a successful account registration appends the account with a fresh id and leaves companies, jobs and requests alone; an employee row carries the number read from the company-id text, which names an existing company |
| RegisterRoute.RegisterKeepsCredentialsUnique | app/api/auth/register/route.js:159-170 | the duplicate check keeps every account e-mail and username unique |
| RegisterRoute.RegisterRollsBack | app/api/auth/register/route.js:295-296 | a database fault during the transaction rolls back: the answer is the mapped error and the tables are unchanged |
| RegisterRoute.RegisterEmailOnlyReported | app/api/auth/register/route.js:277-293 | the e-mail's delivery changes only the `emailSent` flag of the answer, never the tables or the status |
| RegisterRoute.Post | app/api/auth/register/route.js:35-323 | the route's effect on the database and its answer are those of `Register` |
| VerifyRoute.Verify | app/api/auth/verify/route.js:15-79 | 400 when the e-mail or code is missing, 400 when the code is not six digits, 404 "User not found" for an unknown e-mail, 400 "Account already verified" for a verified account; success exactly for an existing unverified account, with that account's claims; a failure changes nothing |
| VerifyRoute.VerifyMarksOnlyThatAccount | app/api/auth/verify/route.js:54-57 | success flips the verified flag of exactly the found account and touches nothing else |
| VerifyRoute.VerifyOnce | app/api/auth/verify/route.js:46-51 | after a success, every later well-formed attempt for the e-mail answers 400 "Account already verified" |
| VerifyRoute.VerifyIgnoresStoredCodes | app/api/auth/verify/route.js:22-29 | any two six-digit codes give the same outcome, whatever the stored codes are |
| VerifyRoute.Post | app/api/auth/verify/route.js:10-79 | the route's effect and answer are those of `Verify` |
| ResendCodeRoute.ResendCode | app/api/auth/resend-code/route.js:10-56 | 400 without an e-mail, 404 for an unknown e-mail, 400 "Account already verified" for a verified account; success with a six-digit code exactly for an unverified account |
| ResendCodeRoute.ResendThenVerify | app/api/auth/resend-code/route.js:40-56 | the code handed out is accepted by the verify route for the same e-mail |
| ResendCodeRoute.ResendAndVerifyRefuseAlike | app/api/auth/resend-code/route.js:18-37 | whenever resending is refused, verifying with any code is refused with the same status and message |
| ResendVerificationRoute.Recipient | app/api/auth/resend-verification/route.js:16-27 | the e-mail of an accepted token wins over the body's e-mail; without one the body's e-mail is used |
| ResendVerificationRoute.ResendVerification | app/api/auth/resend-verification/route.js:29-67 | a success is a 200 carrying the fixed sent message, never the code |
| ResendVerificationRoute.AgreesWithResendCode | app/api/auth/resend-verification/route.js:29-67 | for the e-mail it settles on, the route answers as resend-code does, but without the code |
| ResendVerificationRoute.TokenOverridesBody | app/api/auth/resend-verification/route.js:16-27 | with an accepted token, the body's e-mail is never consulted |
| MeRoute.Profile | app/api/auth/me/route.js:67-89 | id, e-mail, username and verified flag come from the account; `userType` is "employer" exactly for the Company account type; `isJobSeeker`/`isEmployee` hold exactly when the side row exists with a non-zero id |
| MeRoute.GetMe | app/api/auth/me/route.js:15-96 | 401 without a bearer token, 401 for a rejected token, 404 "User not found" when the account or its type is missing, otherwise 200 with the profile Profile builds for that account and type |
| MeRoute.JobSeekerSideWins | app/api/auth/me/route.js:32-39 | `COALESCE(job seeker's, employee's)`: each name field is the job-seeker person's when it has one and the employee person's otherwise; address (all four fields) and nationality likewise |
| MeRoute.EmployeeSideOtherwise | app/api/auth/me/route.js:32-39 | without a job-seeker person, every name, address and nationality field is the employee person's |
| MeRoute.NoEmployeeNoCompany | app/api/auth/me/route.js:44-55 | an account with no employee row reports no company, position or employee id |
| ApplyRoute.Apply | app/api/jobs/apply/route.js:13-100 | 401 no token, 500 rejected token, 400 no job id, 404 no job-seeker row, 404 unknown job, 400 inactive job, 409 already applied, in source order; success exactly for a job seeker applying to an existing active job for the first time; a failure changes nothing |
| ApplyRoute.ApplyAddsOneRequest | app/api/jobs/apply/route.js:70-80 | success appends exactly one pending request with a fresh id, for that job, seeker and cover letter |
| ApplyRoute.ApplyKeepsOnePerPair | app/api/jobs/apply/route.js:50-67 | at most one request per (job, seeker) pair is preserved |
| ApplyRoute.ApplyTwice | app/api/jobs/apply/route.js:50-67 | applying again to the same job answers 409 and changes nothing |
| ApplyRoute.Post | app/api/jobs/apply/route.js:10-100 | the route's effect and answer are those of `Apply` |
| RespondRoute.Respond | app/api/employee/applications/respond/route.js:13-67 | the auth failures, then a 400 for a missing id or invalid status, then a 403 when the request is not for a job of a company employing the caller; success exactly otherwise; the answer echoes the status; a failure changes nothing |
| RespondRoute.RespondChangesOnlyThatRequest | app/api/employee/applications/respond/route.js:51-55 | only the answered request's status, response and response date change |
| RespondRoute.RespondAgain | app/api/employee/applications/respond/route.js:35-48 | the current status is not consulted: the same employee may answer again with any valid status |
| RespondRoute.Post | app/api/employee/applications/respond/route.js:10-67 | the route's effect and answer are those of `Respond` |
| FollowRoute.Toggle | app/api/companies/follow/route.js:13-83 | 401 / 500 for auth, 400 without a company id, 403 for a caller without a job-seeker row; success exactly otherwise; only the follow table changes; a failure changes nothing |
| FollowRoute.ToggleFlipsPair | app/api/companies/follow/route.js:49-76 | the caller's pair is removed if present and added if absent, `isFollowing` says which, and other pairs keep their state |
| FollowRoute.ToggleTwiceRestores | app/api/companies/follow/route.js:49-76 | two successful toggles give back the follow relation the table started with |
| FollowRoute.ToggleKeepsOneFollowPerPair | app/api/companies/follow/route.js:49-76 | no pair is ever stored twice |
| FollowRoute.Post | app/api/companies/follow/route.js:10-83 | the route's effect and answer are those of `Toggle` |
| PreferencesRoute.PersonOfSeeker | app/api/job-preferences/route.js:35-48 | the person found belongs to an existing account and exists |
| PreferencesRoute.Save | app/api/job-preferences/route.js:9-82 | 401 / 500 for auth, 400 for a missing or empty list, 404 for a caller without a job-seeker person; success exactly when none of the inserts fails; a failure changes nothing |
| PreferencesRoute.SaveReplacesSelection | app/api/job-preferences/route.js:52-70 | afterwards the person's preferences are exactly the submitted ids in order, and other persons' preferences and all other tables are as before |
| PreferencesRoute.Replace | app/api/job-preferences/route.js:52-78 | DELETE then one INSERT per id inside a transaction: either all rows are replaced or, when an insert fails, the table is as before |
| PreferencesRoute.Post | app/api/job-preferences/route.js:9-82 | the route's effect and answer are those of `Save` |
| PreferencesRoute.Joined | app/api/job-preferences/route.js:100-111 | a category is listed exactly when a preference row of the caller's person names it |
| PreferencesRoute.Load | app/api/job-preferences/route.js:84-122 | 401 / 500 for auth, 200 for every accepted token; the list holds the caller's preferred categories sorted by name |
| ProfileUpdateRoute.UserOf | app/api/profile/update/route.js:45-67 | the joined row exists exactly when the account does, and carries a job-seeker id exactly when the account has a job-seeker row with a non-zero id |
| ProfileUpdateRoute.Update | app/api/profile/update/route.js:13-142 | 401 / 500 for auth, 404 for an unknown account; success exactly for a known account without a database fault; a failure changes nothing |
| ProfileUpdateRoute.WritesNationality | app/api/profile/update/route.js:72-86 | only nationality, address, person and account rows can change; the nationality table gains at most the one named row; with distinct nationality ids, they stay distinct and the updated person's nationality id looks up that named row |
| ProfileUpdateRoute.WritesAddressAndPerson | app/api/profile/update/route.js:89-104 | address and person rows are rewritten only when the joined row carries their ids, and then only the rows with those ids |
| ProfileUpdateRoute.WritesAccount | app/api/profile/update/route.js:107-128 | the phone is always written; the photo only when a non-empty one is sent; the resume only when a non-empty one is sent and the caller is a job seeker |
| ProfileUpdateRoute.UpdateIsWrites | app/api/profile/update/route.js:130-134 | a successful update commits exactly those writes |
| ProfileUpdateRoute.Post | app/api/profile/update/route.js:13-142 | the route's effect and answer are those of `Update` |
| RecommendedRoute.Score | app/api/jobs/recommended/route.js:35-38 | the preference score is 10 exactly when the caller prefers the category, else 0 |
| RecommendedRoute.Limit | app/api/jobs/recommended/route.js:25 | a missing or empty `limit` means 20; an all-digit text is read as its decimal value; any other text is unreadable |
| RecommendedRoute.Ranked | app/api/jobs/recommended/route.js:29-58 | sorted by the ORDER BY key, made of candidates, without repeats, min(n, distinct candidates) rows long, and every candidate cut off by the LIMIT ranks no earlier than every row kept |
| RecommendedRoute.Recommend | app/api/jobs/recommended/route.js:10-67 | 401 / 500 for auth, 500 for a limit PostgreSQL cannot read, otherwise the caller's ranked rows up to the limit |
| RecommendedRoute.CandidatesAreOpenJobs | app/api/jobs/recommended/route.js:39-52 | every candidate row is an open job with its company, job type and a category link |
| RecommendedRoute.OpenJobsAreCandidates | app/api/jobs/recommended/route.js:39-52 | every open job with its company, job type and a category link yields a candidate row |
| RecommendedRoute.ScoresDescend | app/api/jobs/recommended/route.js:53-56 | preferred jobs come first |
| RecommendedRoute.RatingsDescendWithinScore | app/api/jobs/recommended/route.js:53-56 | among equal scores, better-rated companies come first, a missing rating counting as 0 |
| RecommendedRoute.AtMostTwentyByDefault | app/api/jobs/recommended/route.js:25-57 | without a limit at most 20 rows come back |
| CompaniesRoute.Viewer | app/api/companies/route.js:13-36 | the follow flags are computed for a viewer exactly when an accepted token belongs to an account with a job-seeker row |
| CompaniesRoute.CompanyCounts | app/api/companies/route.js:53-56 | the intended counts: active jobs ≤ all of the company's jobs, one count per rating, average 0 without ratings |
| CompaniesRoute.JoinMultipliesCounts | app/api/companies/route.js:61-62 | the double LEFT JOIN multiplies the job counts by the number of ratings and the rating count by the number of jobs; the average keeps its value |
| CompaniesRoute.FanOutExample | app/api/companies/route.js:53-62 | a company with 2 jobs and 3 ratings is listed with 6 jobs and 6 ratings |
| CompaniesRoute.ListedRating | app/api/companies/route.js:81 | the average when it is non-zero, else the stored rating when set and non-zero, else 0 |
| CompaniesRoute.StoredRatingIgnoredAsWritten | app/api/companies/route.js:81 | with no ratings and a stored rating of 4, the expression as written lists 0 |
| CompaniesRoute.Row | app/api/companies/route.js:78-86 | a company's row carries its id, name, intended counts and listed rating, not followed |
| CompaniesRoute.Companies | app/api/companies/route.js:39-86 | the listing with the corrected counts and rating (see "## Findings"), sorted by name and a permutation of the grouped rows |
| CompaniesRoute.FollowFlag | app/api/companies/route.js:57-66 | a row's follow flag says whether the viewer follows the company |
| CompaniesRoute.ListedRowIsCompanys | app/api/companies/route.js:39-86 | every listed row is one company's row, with no more active jobs than jobs |
| CompaniesRoute.EveryCompanyListed | app/api/companies/route.js:60 | every company of the table is listed |
| CompaniesRoute.OneRowPerCompany | app/api/companies/route.js:67-70 | with at most one follow per pair, there is exactly one row per company |
| EmployeeApplicationsRoute.FullName | app/api/employee/applications/route.js:51 | `first || ' ' || last` is NULL when either name is, else the two names with a space |
| EmployeeApplicationsRoute.Applicants | app/api/employee/applications/route.js:26-69 | 401 / 500 for auth, 404 exactly when the caller has no employee row, 200 otherwise; the list is sorted newest first |
| EmployeeApplicationsRoute.CompanyApplicationsOnly | app/api/employee/applications/route.js:41-62 | the list holds exactly the applications to jobs of the caller's company whose joins exist |
| EmployeeApplicationsRoute.JoinedIsCompanyJob | app/api/employee/applications/route.js:41-58 | a joined row names a job of the company and the request's applicant |
| EmployeeApplicationsRoute.NewestApplicantsFirst | app/api/employee/applications/route.js:59 | no application is listed before a newer one |
| SeekerApplicationsRoute.Applications | app/api/jobseeker/applications/route.js:26-70 | 401 / 500 for auth, 404 exactly when the caller has no job-seeker row, 200 otherwise; the list is sorted newest first |
| SeekerApplicationsRoute.OwnApplicationsOnly | app/api/jobseeker/applications/route.js:41-63 | the list holds exactly the caller's applications whose job, company and job type exist |
| SeekerApplicationsRoute.NewestApplicationsFirst | app/api/jobseeker/applications/route.js:41-63 | no application is listed before a newer one |
| JobHistoryRoute.History | app/api/employee/job-history/route.js:26-64 | 401 / 500 for auth, 404 exactly when the caller has no employee row, 200 otherwise; the list is sorted by posting date, newest first |
| JobHistoryRoute.CompanyJobsOnly | app/api/employee/job-history/route.js:41-57 | the history lists exactly the company's jobs whose type exists, each with its number of requests |
| JobHistoryRoute.ApplyCountsOnce | app/api/employee/job-history/route.js:48-52 | a successful application raises that job's application count by one and leaves other jobs' counts alone |
| Landing.Guard | app/profile/page.js:21-59 | shown exactly with a token, a successful `/me` and the right kind of user; to login exactly without a token or on a failed `/me`; otherwise redirected to the given path |
| PostingHistoryPage.FilterJobs | app/employee/posting-history/page.js:68-82 | "active", "inactive" and "expired" keep exactly the matching postings; any other filter keeps all of them |
| PostingHistoryPage.FilterJobsAppend | app/employee/posting-history/page.js:68-82 | the filter decides job by job: a single job is kept exactly when it matches, and the filter of a concatenation is the concatenation of the filters, so order is kept |
| PostingHistoryPage.CountsMatchFilters | app/employee/posting-history/page.js:152-176 | each button's count is the size of its filter, and active plus inactive is the total |
| PostingHistoryPage.ToggleStatus | app/employee/posting-history/page.js:84-109 | the request asks for the opposite of the current status |
| PostingHistoryPage.ToggleTwice | app/employee/posting-history/page.js:96-100 | toggling twice restores the status, and the message says "activated" exactly when the job becomes active |
| PostingHistoryPage.Arrive | app/employee/posting-history/page.js:24-52 | the page is shown exactly to a logged-in employee; others go to the job-seeker dashboard |
| SeekerDashboardPage.StatusCountsWithinTotal | app/jobseeker/dashboard/page.js:59-68 | pending + accepted + rejected ≤ total, with equality exactly when every status is one of the three |
| SeekerDashboardPage.StatsOf | app/jobseeker/dashboard/page.js:59-67 | the total is the number of applications, and each status count is the number of applications carrying that status |
| SeekerDashboardPage.StatusPartition | app/jobseeker/dashboard/page.js:59-68 | the three counts plus the count of other statuses make the total |
| SeekerDashboardPage.RecentJobs | app/jobseeker/dashboard/page.js:77 | the first five jobs, or all of them when there are fewer |
| SeekerDashboardPage.ShownApplications | app/jobseeker/dashboard/page.js:193 | the first three applications, or all of them when there are fewer |
| SeekerDashboardPage.Arrive | app/jobseeker/dashboard/page.js:16-37 | shown exactly to a logged-in job seeker; others go to the employee dashboard |
| SeekerDashboardPage.ShownToJobSeekers | app/jobseeker/dashboard/page.js:16-37 | with a stored accepted token, the dashboard is shown exactly when `/me` finds the account, its type and a job-seeker row with a non-zero id |
| SeekerDashboardPage.BearerOfToken | app/jobseeker/dashboard/page.js:23 | the header `Bearer <token>` the page sends is read back as the token |
| PreferencesPage.Toggle | app/job-preferences/page.js:29-35 | the clicked id flips membership, other ids keep theirs, and a new id is appended |
| PreferencesPage.ToggleTwice | app/job-preferences/page.js:29-35 | two clicks restore membership, and restore the list exactly when the id was absent |
| PreferencesPage.ToggleKeepsOthers | app/job-preferences/page.js:29-35 | a click never reorders or drops the other ids |
| PreferencesPage.ToggleKeepsDistinct | app/job-preferences/page.js:29-35 | clicking keeps the selection free of duplicates |
| PreferencesPage.TogglesStayDistinct | app/job-preferences/page.js:29-35 | any sequence of clicks from the empty selection gives a list without duplicates |
| PreferencesPage.SavePreferences | app/job-preferences/page.js:38-54 | nothing is sent exactly when the selection is empty, with its message; otherwise the selection is sent |
| PreferencesPage.SavedIsSelection | app/job-preferences/page.js:54-58 | after a successful save the stored preferences are exactly the page's selection, in order |
| ProfilePage.PhotoProblem | app/profile/page.js:68-78 | a photo is refused exactly when larger than 10 MiB |
| ProfilePage.ResumeProblem | app/profile/page.js:86-99 | a resume is accepted exactly when at most 10 MiB and a PDF, and the size message comes first |
| ProfilePage.InitialForm | app/profile/page.js:37-47 | nationality defaults to "Filipino" and is never empty; phone is always ""; each of the first, last and middle name, premise, street, barangay and city is the user's value when set and non-empty, and "" exactly otherwise |
| ProfilePage.ProfileView.CheckAuth | app/profile/page.js:21-59 | the route is `Guard(…, "/Login")`; on show the user and form are loaded; loading ends unless the token was missing |
| ProfilePage.ProfileView.PhotoUpload | app/profile/page.js:68-78 | a too-large photo sets the error and keeps the old photo; an accepted one sets photo and preview |
| ProfilePage.ProfileView.ResumeUpload | app/profile/page.js:86-99 | a refused resume sets its error; an accepted one is kept |
| ProfilePage.ProfileView.FinishSave | app/profile/page.js:101-150 | success leaves edit mode and clears the pending files, and takes the re-fetched user; a throw in that re-fetch leaves the success message but shows the network error; a failure shows the server's error or the default; a throw of the save request shows the network message |
| CompanyRatingWidget.StarFill | components/CompanyRating.js:117 | star k is filled exactly when k ≤ the hover value, or ≤ the rating when not hovering |
| CompanyRatingWidget.FilledStars | components/CompanyRating.js:117 | the filled stars form a prefix, and their number is the shown value clamped to 0..5 |
| CompanyRatingWidget.RatingWidget.SubmitDisabled | components/CompanyRating.js:151 | the button is enabled exactly with a rating chosen and no submission running |
| CompanyRatingWidget.RatingWidget.LoadUserRating | components/CompanyRating.js:17-36 | a previous rating fills the rating and review text ("" when it has none) and marks the widget rated; otherwise nothing changes |
| CompanyRatingWidget.RatingWidget.Click | components/CompanyRating.js:118 | the rating becomes the star, and without hover exactly that many stars are filled |
| CompanyRatingWidget.RatingWidget.Hover | components/CompanyRating.js:119 | hovering star k fills exactly k stars |
| CompanyRatingWidget.RatingWidget.Leave | components/CompanyRating.js:120 | leaving shows the rating again |
| CompanyRatingWidget.RatingWidget.Submit | components/CompanyRating.js:38-66 | without a rating nothing is sent or changed; otherwise the rating and text are sent, an accepted answer records the rating and closes the modal, and submitting always ends |
| JobCard.ShownBadge | components/JobCard.js:11-33 | a badge shows exactly when matching is on and the score is 100 (perfect) or 50 (similar) |
| JobCard.PreferenceBadge | components/JobCard.js:11-28 | no badge unless matching is on and the score truthy; "Perfect Match" exactly for 100 and "Similar Field" exactly for 50 |
| JobCard.RecommendedScoresShowNoBadge | components/JobCard.js:11-28 | the scores the recommended route produces (10 or 0) never show a badge |
| JobCard.DescriptionText | components/JobCard.js:68 | a prefix of the description followed by "...": the whole description when it has at most 120 characters, exactly its first 120 otherwise (123 in all), and "..." alone without one |
| JobCard.Chips | components/JobCard.js:73-82 | one chip per present category string, the field chip first and the category chip last |
| JobCard.FirstChip | components/JobCard.js:73-82 | a chip is the first comma-separated name of its string |
| ApplicantModal.FieldOrder | components/ApplicantProfileModal.js:212-220 | each field appears once, in order of first appearance |
| ApplicantModal.GroupPreferences | components/ApplicantProfileModal.js:212-220 | the grouping loop yields the fields in first-appearance order, and each field's category names in order |
| ApplicantModal.FieldOrderMembers | components/ApplicantProfileModal.js:212-220 | a field is listed exactly when some preference has it |
| ApplicantModal.NamesInMembers | components/ApplicantProfileModal.js:212-220 | a name is in a field's group exactly when that (field, name) preference exists |
| ApplicantModal.EveryPreferenceShownOnce | components/ApplicantProfileModal.js:212-220 | summed over all groups, every preference is shown exactly once |
| ApplicantModal.PreferencesPanel | components/ApplicantProfileModal.js:237-240 | the "no preferences" panel shows exactly when the list is missing or empty; otherwise the grouping above |
| ApplicantModal.ProfileModal.Load | components/ApplicantProfileModal.js:18-37 | success stores the profile, a failure its error, a throw the network message; loading always ends |
| ApplicantModal.ProfileModal.ViewResume | components/ApplicantProfileModal.js:39-45 | the viewer opens on `/api/profile/resume/<id>` exactly when the applicant has a resume |
| ApplicantModal.ProfileModal.CloseResumeViewer | components/ApplicantProfileModal.js:47-50 | the viewer closes and its URL clears |
| CompaniesPage.Selected | app/companies/page.js:96-113 | a company is kept exactly when it matches the search term (name, or description when set) and its rating meets the filter |
| CompaniesPage.BeforeTotal | app/companies/page.js:116-127 | every sort order compares any two companies |
| CompaniesPage.BeforeTransitive | app/companies/page.js:116-127 | every sort order is transitive |
| CompaniesPage.SortInPlace | app/companies/page.js:116-127 | `Array.prototype.sort` in place: sorted by the comparator and a permutation; untouched when every pair compares equal |
| CompaniesPage.SortedCopy | app/companies/page.js:116-127 | the sorted list holds the same companies as the selection, ordered by the chosen order; "newest" keeps the selection's order |
| CompaniesPage.CompaniesView.ApplyFilters | app/companies/page.js:96-130 | the filtered list is the selected companies sorted by the chosen order, in their original order for "newest" |
| CompaniesPage.CompaniesView.ClearFilters | app/companies/page.js:132-136 | search, rating filter and sort return to their defaults |
| CompaniesPage.TotalPages | app/companies/page.js:142 | `ceil(n / 12)`: the least page count whose pages hold all n companies (none for none) |
| CompaniesPage.PageOf | app/companies/page.js:139-141 | a page shows at most twelve companies, in filtered order starting at (page - 1) * 12, and exactly twelve unless it is the last |
| CompaniesPage.OnExactlyOnePage | app/companies/page.js:139-142 | each filtered company lies on exactly one page between 1 and the page count |
| CompaniesPage.CompaniesView.Paginate | app/companies/page.js:144 | the current page becomes the one clicked, and nothing else changes |

## Left out

- Password hashing (bcrypt), JWT signing and expiry, and random numbers are parameters. The hash is a string, a token is a key of the verifier map, and the random draw is an integer in 0..899999.
- Sending e-mail (lib/email.js) is a parameter, `emailSent`.
- Clocks are parameters (`now`).
- Database faults are parameters, only where a route answers them differently: the pg error code in register, the failing insert in job-preferences, a fault flag in the profile update.
- A failed `SELECT` inside any other route would also land in its `catch`; that case is not modelled.
- Concurrency is not modelled. In particular, two simultaneous applications can both pass the duplicate check before either inserts.
- Floating-point ratings and averages are exact ratios (`CompaniesRoute.Ratio`). `parseFloat` of the rating filter reads whole numbers only, because the select box offers only those.
- pg returns `numeric` columns as text; this is modelled only where it changes behaviour (the listed rating).
- `localeCompare` and PostgreSQL's `ORDER BY` on names compare character codes; locale collation is not modelled.
- Text.Lower: only the ASCII letters A-Z are folded. JavaScript's `toLowerCase` also folds other letters ("É" to "é") and can lengthen a text ("İ" becomes two code units), so the search is modelled for ASCII case only.
- RegisterRoute.IntegerLiteral: PostgreSQL's integer input also accepts spaces around the number and, from version 16, underscores between digits and `0x`/`0o`/`0b` prefixes; the model reads such text as a syntax error (the 500 answer).
- RegisterRoute.RegisterRequest: the company id is the text the register form sends; a JSON number sent by another client is not modelled.
- RegisterRoute.Precheck: the eight-character minimum counts characters of the model's strings, while JavaScript's `password.length` counts UTF-16 code units; a password of four characters outside the Basic Multilingual Plane passes the route and fails the model.
- Schema.Pending: the apply route's INSERT leaves `request_status` to the column's default, which no source file of this model shows (the database schema is not part of this model). The value "pending" is assumed, because the seeker dashboard counts that status.
- Wrappers.Defaulted: a destructuring default applies to an absent field only, and a JSON `null` stays null. The model's `None` stands for both, so a body sending `null` gets the default in the model.
- Schema.NextId: the next id is one more than the largest id present, so an id freed by deleting the newest row can come back; a SERIAL sequence never reuses one. No property proved here depends on the difference.
- CompaniesPage.SortedCopy: stability among companies whose keys tie is not stated, beyond keeping the order when every pair ties; the insertion sort only swaps out-of-order neighbours, but a proof of full stability is not part of the model.
- `RecommendedRoute.Limit`: PostgreSQL's reading of a `LIMIT` text with signs, spaces or a fraction is not modelled. Any text that is not all digits counts as the error path.
- Salary, time, logo, website, phone and other display-only columns are carried as opaque values or left out of the rows.
- `/api/jobs/search`, the Google OAuth callback, and the nationalities and job-categories pass-through routes are not part of this model. So are the login, registration and verify forms and the employee dashboard page.
- Company detail routes and pages (`/api/companies/[id]`, `/api/jobs/[id]`) are not part of this model.
- ProfilePage.ProfileView.FinishSave: the re-fetch of `/api/auth/me` after a successful save is a parameter (its answer, or `None` when it throws); the form is not rebuilt from it.
- ProfilePage.ProfileView.PhotoUpload: `URL.createObjectURL` is a parameter.
- CompaniesPage.CompaniesView.ApplyFilters: the "newest" sort compares `company_created_date`, which the listing never selects. Every key is equal, so the order is left as selected.
- ApplicantModal.GroupPreferences: JavaScript objects list keys that look like array indices first and treat inherited names such as `constructor` specially; the grouping is modelled on a `map` plus the first-appearance field order.
- CompanyRatingWidget.RatingWidget.Submit: the `onRatingSubmitted` callback is the `notified` return value.
- The dashboard's `|| 0` display fallback for the counts is not modelled; the counts are always numbers.

## Findings

| source | as written | input that shows it | evidently intended | confidence | as-written member | corrected member |
|---|---|---|---|---|---|---|
| app/api/companies/route.js:53-62 | `Job` and `Company_ratings` are both LEFT JOINed to the company before `GROUP BY`, so every job row meets every rating row | a company with 2 active jobs and 3 ratings: listed with 6 active jobs, 6 jobs and 6 ratings | each job and each rating counted once (2, 2 and 3) | high, not executed | CompaniesRoute.FanOutExample | CompaniesRoute.CompanyCounts |
| app/api/companies/route.js:81 | `avg_rating \|\| company_rating \|\| 0`, where `avg_rating` is `COALESCE(AVG(..), 0)` sent by the driver as the text "0", which is truthy | a company with stored rating 4 and no rating rows: listed with rating 0 | fall back to the stored rating when there are no ratings | medium, not executed | CompaniesRoute.StoredRatingIgnoredAsWritten | CompaniesRoute.ListedRating |
