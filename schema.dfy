/** The relational schema the routes read and write, as in-memory tables: every table is a
    sequence of rows in insertion order, and a row carries its own primary key. */
module Schema {
  import opened Wrappers
  import opened Lists

  type Bytes = seq<bv8>

  datatype Address = Address(id: int, premise: string, street: string, barangay: string, city: string)
  datatype Nationality = Nationality(id: int, name: string)
  datatype Person = Person(id: int, firstName: Option<string>, lastName: Option<string>,
                           middleName: Option<string>, addressId: int, nationalityId: int)
  datatype AccountType = AccountType(id: int, name: string)
  datatype Account = Account(id: int, email: string, username: string, phone: Option<string>,
                             number: string, passwordHash: string, typeId: int, verified: bool,
                             photo: Option<Bytes>, resume: Option<Bytes>)
  datatype JobSeeker = JobSeeker(id: int, personId: int, accountId: int)
  datatype Employee = Employee(id: int, personId: int, accountId: int, companyId: int, position: string)
  datatype Company = Company(id: int, name: string, email: string, phone: Option<string>,
                             website: Option<string>, description: Option<string>,
                             addressId: int, rating: Option<int>)
  datatype CompanyRating = CompanyRating(id: int, companyId: int, rating: int)
  datatype JobType = JobType(id: int, name: string)
  datatype JobCategory = JobCategory(id: int, name: string)
  /** Dates (posting, closing) are instants in milliseconds. */
  datatype Job = Job(id: int, name: string, description: Option<string>, location: Option<string>,
                     companyId: int, typeId: int, active: bool, closing: Option<int>, posted: int)
  /** A row of Job_Category_List. */
  datatype JobCategoryLink = JobCategoryLink(jobId: int, categoryId: int)
  /** A row of Job_requests: one application of a job seeker to a job. */
  datatype JobRequest = JobRequest(id: int, jobId: int, seekerId: int, coverLetter: Option<string>,
                                   status: string, response: Option<string>,
                                   responseDate: Option<int>, date: int)
  /** A row of Followed_companies. */
  datatype Follow = Follow(id: int, companyId: int, seekerId: int)
  /** A row of Jobseeker_preference. */
  datatype Preference = Preference(personId: int, categoryId: int)
  /** A row of Verification_codes (primary key account_id). */
  datatype VerificationCode = VerificationCode(accountId: int, code: string, expiresAt: int)

  datatype Tables = Tables(
    addresses: seq<Address>,
    nationalities: seq<Nationality>,
    persons: seq<Person>,
    accountTypes: seq<AccountType>,
    accounts: seq<Account>,
    seekers: seq<JobSeeker>,
    employees: seq<Employee>,
    companies: seq<Company>,
    companyRatings: seq<CompanyRating>,
    jobTypes: seq<JobType>,
    categories: seq<JobCategory>,
    jobs: seq<Job>,
    jobCategories: seq<JobCategoryLink>,
    requests: seq<JobRequest>,
    follows: seq<Follow>,
    preferences: seq<Preference>,
    codes: seq<VerificationCode>)

  /** The database the route handlers update in place. */
  class Database {
    var t: Tables

    constructor (initial: Tables)
      ensures t == initial
    {
      t := initial;
    }
  }

  /** The default of Job_requests.request_status for a new application. */
  const Pending: string := "pending"

  /** The key a SERIAL column hands out next: larger than every key in use, and positive. */
  function NextId(ids: seq<int>): (k: int)
    ensures k >= 1
    ensures forall i :: 0 <= i < |ids| ==> ids[i] < k
  {
    if |ids| == 0 then 1
    else
      var rest := NextId(ids[1..]);
      assert forall i :: 1 <= i < |ids| ==> ids[i] == ids[1..][i - 1];
      if ids[0] < rest then rest else ids[0] + 1
  }

  function AddressIds(rows: seq<Address>): seq<int> { seq(|rows|, i requires 0 <= i < |rows| => rows[i].id) }
  function NationalityIds(rows: seq<Nationality>): seq<int> { seq(|rows|, i requires 0 <= i < |rows| => rows[i].id) }
  function PersonIds(rows: seq<Person>): seq<int> { seq(|rows|, i requires 0 <= i < |rows| => rows[i].id) }
  function AccountIds(rows: seq<Account>): seq<int> { seq(|rows|, i requires 0 <= i < |rows| => rows[i].id) }
  function SeekerIds(rows: seq<JobSeeker>): seq<int> { seq(|rows|, i requires 0 <= i < |rows| => rows[i].id) }
  function EmployeeIds(rows: seq<Employee>): seq<int> { seq(|rows|, i requires 0 <= i < |rows| => rows[i].id) }
  function CompanyIds(rows: seq<Company>): seq<int> { seq(|rows|, i requires 0 <= i < |rows| => rows[i].id) }
  function RequestIds(rows: seq<JobRequest>): seq<int> { seq(|rows|, i requires 0 <= i < |rows| => rows[i].id) }
  function FollowIds(rows: seq<Follow>): seq<int> { seq(|rows|, i requires 0 <= i < |rows| => rows[i].id) }

  // Single-row lookups: `rows[0]` of the source's SELECT ... WHERE.

  function AccountById(t: Tables, id: int): Option<Account> {
    Find(t.accounts, AccountIdIs(id))
  }

  /** The row test of `WHERE account_id = id`. */
  function AccountIdIs(id: int): Account -> bool {
    (a: Account) => a.id == id
  }

  function AccountByEmail(t: Tables, email: string): Option<Account> {
    Find(t.accounts, AccountEmailIs(email))
  }

  /** The row test of `WHERE account_email = email`. */
  function AccountEmailIs(email: string): Account -> bool {
    (a: Account) => a.email == email
  }

  function SeekerOf(t: Tables, accountId: int): Option<JobSeeker> {
    Find(t.seekers, (s: JobSeeker) => s.accountId == accountId)
  }

  function SeekerById(t: Tables, id: int): Option<JobSeeker> {
    Find(t.seekers, (s: JobSeeker) => s.id == id)
  }

  function EmployeeOf(t: Tables, accountId: int): Option<Employee> {
    Find(t.employees, (e: Employee) => e.accountId == accountId)
  }

  function PersonById(t: Tables, id: int): Option<Person> {
    Find(t.persons, (p: Person) => p.id == id)
  }

  function AddressById(t: Tables, id: int): Option<Address> {
    Find(t.addresses, (a: Address) => a.id == id)
  }

  function NationalityById(t: Tables, id: int): Option<Nationality> {
    Find(t.nationalities, NationalityIdIs(id))
  }

  /** The row test of `WHERE nationality_id = id`. */
  function NationalityIdIs(id: int): Nationality -> bool {
    (n: Nationality) => n.id == id
  }

  function CompanyById(t: Tables, id: int): Option<Company> {
    Find(t.companies, (c: Company) => c.id == id)
  }

  function JobById(t: Tables, id: int): Option<Job> {
    Find(t.jobs, (j: Job) => j.id == id)
  }

  function JobTypeById(t: Tables, id: int): Option<JobType> {
    Find(t.jobTypes, (jt: JobType) => jt.id == id)
  }

  function CategoryById(t: Tables, id: int): Option<JobCategory> {
    Find(t.categories, (c: JobCategory) => c.id == id)
  }

  function AccountTypeById(t: Tables, id: int): Option<AccountType> {
    Find(t.accountTypes, (at: AccountType) => at.id == id)
  }

  /** The row test of `WHERE nationality_name = name`. */
  function NamedNationality(name: string): Nationality -> bool {
    (n: Nationality) => n.name == name
  }

  /** The nationality step of registration and profile update: SELECT the row named `name`,
      or INSERT one when there is none. Afterwards the id names that nationality, and at most
      one row was added. */
  function FindOrCreateNationality(rows: seq<Nationality>, name: string): (r: (seq<Nationality>, int))
    ensures Find(r.0, NamedNationality(name)) == Some(Nationality(r.1, name))
    ensures r.0 == rows <==> Find(rows, NamedNationality(name)).Some?
    ensures r.0 != rows ==> r.0 == rows + [Nationality(r.1, name)]
    ensures r.0 != rows ==> r.1 !in NationalityIds(rows)
  {
    match Find(rows, NamedNationality(name))
    case Some(n) => (rows, n.id)
    case None =>
      var id := NextId(NationalityIds(rows));
      FindAppend(rows, Nationality(id, name), NamedNationality(name));
      (rows + [Nationality(id, name)], id)
  }

  /** While nationality ids are distinct, they stay distinct, and the id returned names the row
      of that name. */
  lemma FindOrCreateNationalityById(rows: seq<Nationality>, name: string)
    requires Distinct(NationalityIds(rows))
    ensures var (rows', id) := FindOrCreateNationality(rows, name);
      && Distinct(NationalityIds(rows'))
      && Find(rows', NationalityIdIs(id)) == Some(Nationality(id, name))
  {
    var (rows', id) := FindOrCreateNationality(rows, name);
    var ids := NationalityIds(rows);
    if rows' == rows {
      var found := Find(rows, NationalityIdIs(id)).value;
      var i :| 0 <= i < |rows| && rows[i] == found;
      var j :| 0 <= j < |rows| && rows[j] == Nationality(id, name);
      assert ids[i] == ids[j];
    } else {
      FindAppend(rows, Nationality(id, name), NationalityIdIs(id));
      assert forall k :: 0 <= k < |rows| ==> rows[k].id == ids[k];
      assert NationalityIds(rows') == ids + [id];
    }
  }
}
