/** POST /api/auth/register: the validation chain, then either a company (Address + Company)
    or an account (Address, Person, Account, Job_seeker or Employee, Verification_codes)
    inserted inside one transaction. */
module RegisterRoute {
  import opened Wrappers
  import opened Text
  import opened Lists
  import opened Http
  import opened Schema

  /** The JSON body; an absent field is None. The register form sends every field, the company id
      included, as text. */
  datatype RegisterRequest = RegisterRequest(
    userType: Option<string>,
    firstName: Option<string>, lastName: Option<string>, middleName: Option<string>,
    email: Option<string>, username: Option<string>, phone: Option<string>,
    password: Option<string>, confirmPassword: Option<string>,
    companyId: Option<string>,
    companyName: Option<string>, companyEmail: Option<string>, companyPhone: Option<string>,
    companyWebsite: Option<string>, companyDescription: Option<string>,
    premiseName: Option<string>, streetName: Option<string>,
    barangayName: Option<string>, cityName: Option<string>,
    companyPremiseName: Option<string>, companyStreetName: Option<string>,
    companyBarangayName: Option<string>, companyCityName: Option<string>,
    nationalityName: Option<string>)

  /** A PostgreSQL error raised by one of the transaction's statements: its SQLSTATE and text. */
  datatype DbError = DbError(code: string, message: string)

  datatype Registered =
    | CompanyCreated(message: string, companyId: int, userType: string)
    | AccountCreated(message: string, userId: int, userType: string, emailSent: bool)

  /** A verification code stays valid for ten minutes (in milliseconds). */
  const CodeLifetime: int := 10 * 60 * 1000

  /** `Math.floor(100000 + Math.random() * 900000).toString()`, given `floor(Math.random() * 900000)`. */
  function GenerateVerificationCode(rand: int): (code: string)
    requires 0 <= rand < 900000
    ensures IsSixDigits(code)
    ensures 100000 <= DigitsValue(code) <= 999999
  {
    SixDigitNumber(100000 + rand);
    DecimalString(100000 + rand)
  }

  /** `'ACC' + Date.now().toString()`. */
  function AccountNumber(now: nat): string {
    "ACC" + DecimalString(now)
  }

  predicate IsCompany(req: RegisterRequest) { req.userType == Some("company") }
  predicate IsEmployee(req: RegisterRequest) { req.userType == Some("employee") }
  predicate IsJobSeeker(req: RegisterRequest) { req.userType == Some("job-seeker") }

  predicate RequiredFields(req: RegisterRequest) {
    Truthy(req.firstName) && Truthy(req.lastName) && Truthy(req.email)
    && Truthy(req.username) && Truthy(req.password)
  }

  predicate KnownUserType(req: RegisterRequest) {
    IsJobSeeker(req) || IsEmployee(req) || IsCompany(req)
  }

  const MinInteger: int := -2147483648
  const MaxInteger: int := 2147483647

  /** The text PostgreSQL's integer input reads: digits, or a sign followed by digits. */
  function IntegerLiteral(text: string): (r: Option<int>)
    ensures r.Some? <==> IsDigits(text) || (|text| > 1 && text[0] in "+-" && IsDigits(text[1..]))
    ensures IsDigits(text) ==> r == Some(DigitsValue(text))
    ensures |text| > 1 && text[0] == '-' && IsDigits(text[1..]) ==> r == Some(-(DigitsValue(text[1..]) as int))
  {
    if IsDigits(text) then Some(DigitsValue(text))
    else if |text| > 1 && text[0] == '-' && IsDigits(text[1..]) then Some(-(DigitsValue(text[1..]) as int))
    else if |text| > 1 && text[0] == '+' && IsDigits(text[1..]) then Some(DigitsValue(text[1..]))
    else None
  }

  /** Binding the form's text to `company_id = $1` (an `integer` column): the number it reads as,
      or the error the statement raises. */
  datatype IdReading = IdNumber(value: int) | IdRejected(error: DbError)

  const BadSyntaxPrefix := "invalid input syntax for type integer: "

  function ReadCompanyId(text: string): (r: IdReading)
    ensures r.IdNumber? <==> IntegerLiteral(text).Some? && MinInteger <= IntegerLiteral(text).value <= MaxInteger
    ensures r.IdNumber? ==> r.value == IntegerLiteral(text).value
    ensures IntegerLiteral(text).None? ==> r == IdRejected(DbError("22P02", BadSyntaxPrefix + "\"" + text + "\""))
    ensures r.IdRejected? && IntegerLiteral(text).Some? ==> r.error.code == "22003"
  {
    match IntegerLiteral(text)
    case None => IdRejected(DbError("22P02", BadSyntaxPrefix + "\"" + text + "\""))
    case Some(n) =>
      if MinInteger <= n <= MaxInteger then IdNumber(n)
      else IdRejected(DbError("22003", "value \"" + text + "\" is out of range for type integer"))
  }

  /** The id the route prints for a new company is read back as that company's id. */
  lemma ReadCompanyIdRoundTrip(n: nat)
    requires n <= MaxInteger
    ensures ReadCompanyId(DecimalString(n)) == IdNumber(n)
  {
    DecimalRoundTrip(n);
  }

  /** The company-id text makes the existence query raise an error. */
  predicate CompanyIdRejected(req: RegisterRequest) {
    req.companyId.Some? && ReadCompanyId(req.companyId.value).IdRejected?
  }

  predicate CompanyIdReadable(req: RegisterRequest) {
    req.companyId.Some? && ReadCompanyId(req.companyId.value).IdNumber?
  }

  /** The company id the Employee row carries. */
  function CompanyNumber(req: RegisterRequest): int
    requires CompanyIdReadable(req)
  {
    ReadCompanyId(req.companyId.value).value
  }

  /** `SELECT ... FROM Company WHERE company_id = $1` finds a row. */
  predicate CompanyExists(t: Tables, req: RegisterRequest) {
    CompanyIdReadable(req) && CompanyById(t, CompanyNumber(req)).Some?
  }

  /** Everything the chain of early returns demands, stated at once. */
  predicate Acceptable(t: Tables, req: RegisterRequest) {
    && KnownUserType(req)
    && (IsCompany(req) ==> Truthy(req.companyName) && Truthy(req.companyEmail))
    && (!IsCompany(req) ==>
          RequiredFields(req) && req.password == req.confirmPassword && |req.password.value| >= 8)
    && (IsEmployee(req) ==> Truthy(req.companyId) && CompanyExists(t, req))
  }

  const RequiredMessage := "All required fields must be filled"
  const MismatchMessage := "Passwords do not match"
  const ShortMessage := "Password must be at least 8 characters long"
  const AccountCreatedMessage := "Registration successful! Please check your email for verification."
  const DuplicateAccountMessage := "User with this email or username already exists"
  const CompanyIdMessage := "Company ID is required for employees"
  const CompanyFieldsMessage := "Company name and email are required for company registration"
  const UserTypeMessage := "Please select a valid user type (job-seeker, employee, or company)"
  const NoCompanyMessage := "Invalid company ID. Company does not exist."
  const UniqueViolationMessage := "Email or username already exists"
  const ForeignKeyMessage := "Database constraint error. Please check your input data."
  const NotNullMessage := "Required field is missing."
  const DuplicateCompanyMessage := "Company with this email already exists"
  const CompanyCreatedPrefix := "Company registration successful! Your company ID is "

  /** The checks a request meets before the user-type check: the non-company chain, or the
      company's two fields. */
  predicate OwnChecksPass(req: RegisterRequest) {
    && (IsCompany(req) ==> Truthy(req.companyName) && Truthy(req.companyEmail))
    && (!IsCompany(req) ==>
          && RequiredFields(req) && req.password == req.confirmPassword && |req.password.value| >= 8
          && (IsEmployee(req) ==> Truthy(req.companyId)))
  }

  /** The checks made before BEGIN, in the source's order; the first that fails answers 400, except
      a company id the existence query cannot read, which the catch block answers with 500. */
  function Precheck(t: Tables, req: RegisterRequest): (r: Option<Response<Registered>>)
    ensures r.None? <==> Acceptable(t, req)
    ensures r.Some? ==> r.value.Fail? && (r.value.status == 400 || r.value.status == 500)
    ensures (r.Some? && r.value.status == 500) <==> OwnChecksPass(req) && IsEmployee(req) && CompanyIdRejected(req)
    ensures !IsCompany(req) && !RequiredFields(req) ==> r == Some(Fail(400, RequiredMessage))
    ensures (!IsCompany(req) && RequiredFields(req) && req.password != req.confirmPassword)
              ==> r == Some(Fail(400, MismatchMessage))
    ensures (!IsCompany(req) && RequiredFields(req) && req.password == req.confirmPassword
             && |req.password.value| < 8) ==> r == Some(Fail(400, ShortMessage))
    ensures (!IsCompany(req) && RequiredFields(req) && req.password == req.confirmPassword
             && |req.password.value| >= 8 && IsEmployee(req) && !Truthy(req.companyId))
              ==> r == Some(Fail(400, CompanyIdMessage))
    ensures (IsCompany(req) && !(Truthy(req.companyName) && Truthy(req.companyEmail)))
              ==> r == Some(Fail(400, CompanyFieldsMessage))
    ensures OwnChecksPass(req) && !KnownUserType(req) ==> r == Some(Fail(400, UserTypeMessage))
    ensures (OwnChecksPass(req) && IsEmployee(req) && CompanyIdRejected(req))
              ==> r == Some(ErrorResponse(ReadCompanyId(req.companyId.value).error))
    ensures (OwnChecksPass(req) && IsEmployee(req) && !CompanyIdRejected(req) && !CompanyExists(t, req))
              ==> r == Some(Fail(400, NoCompanyMessage))
  {
    if !IsCompany(req) then
      if !RequiredFields(req) then Some(Fail(400, RequiredMessage))
      else if req.password != req.confirmPassword then Some(Fail(400, MismatchMessage))
      else if |req.password.value| < 8 then Some(Fail(400, ShortMessage))
      else if IsEmployee(req) && !Truthy(req.companyId) then Some(Fail(400, CompanyIdMessage))
      else LaterChecks(t, req)
    else if !(Truthy(req.companyName) && Truthy(req.companyEmail)) then
      Some(Fail(400, CompanyFieldsMessage))
    else LaterChecks(t, req)
  }

  /** The two checks every kind of request meets after its own: a known user type, and for an
      employee an existing company. A company-id text the query cannot bind raises, and the catch
      block answers; an absent one binds NULL, which matches no row. */
  function LaterChecks(t: Tables, req: RegisterRequest): (r: Option<Response<Registered>>)
    ensures r.None? <==> KnownUserType(req) && (IsEmployee(req) ==> CompanyExists(t, req))
    ensures !KnownUserType(req) ==> r == Some(Fail(400, UserTypeMessage))
    ensures (IsEmployee(req) && CompanyIdRejected(req))
              ==> r == Some(ErrorResponse(ReadCompanyId(req.companyId.value).error))
    ensures (IsEmployee(req) && !CompanyIdRejected(req) && !CompanyExists(t, req))
              ==> r == Some(Fail(400, NoCompanyMessage))
  {
    if !Truthy(req.userType) || !KnownUserType(req) then
      Some(Fail(400, UserTypeMessage))
    else if IsEmployee(req) && CompanyIdRejected(req) then
      Some(ErrorResponse(ReadCompanyId(req.companyId.value).error))
    else if IsEmployee(req) && !CompanyExists(t, req) then
      Some(Fail(400, NoCompanyMessage))
    else None
  }

  /** The catch block's mapping from a SQLSTATE to the HTTP status. */
  function ErrorStatus(code: string): (status: int)
    ensures status in {400, 409, 500}
    ensures status == 409 <==> code == "23505"
    ensures status == 400 <==> code == "23503" || code == "23502"
  {
    if code == "23505" then 409
    else if code == "23503" then 400
    else if code == "23502" then 400
    else 500
  }

  function ErrorResponse(e: DbError): Response<Registered> {
    Fail(ErrorStatus(e.code),
      if e.code == "23505" then UniqueViolationMessage
      else if e.code == "23503" then ForeignKeyMessage
      else if e.code == "23502" then NotNullMessage
      else "Registration failed: " + e.message)
  }

  /** The row test of the company-email uniqueness check. */
  function CompanyEmailIs(email: string): Company -> bool {
    (c: Company) => c.email == email
  }

  /** The row test of `account_email = $1 OR account_username = $2`. */
  function SameCredentials(email: string, username: string): Account -> bool {
    (a: Account) => a.email == email || a.username == username
  }

  /** INSERT INTO Account_type VALUES (1, 'Company'), (2, 'Job Seeker') ON CONFLICT DO NOTHING. */
  function EnsureAccountTypes(rows: seq<AccountType>): (r: seq<AccountType>)
    ensures Find(r, (a: AccountType) => a.id == 1).Some? && Find(r, (a: AccountType) => a.id == 2).Some?
    ensures |rows| <= |r| <= |rows| + 2 && r[..|rows|] == rows
  {
    var withCompany :=
      if Find(rows, (a: AccountType) => a.id == 1).Some? then rows else rows + [AccountType(1, "Company")];
    FindAppend(rows, AccountType(1, "Company"), (a: AccountType) => a.id == 1);
    FindAppend(withCompany, AccountType(2, "Job Seeker"), (a: AccountType) => a.id == 2);
    FindAppend(rows, AccountType(1, "Company"), (a: AccountType) => a.id == 2);
    FindAppend(withCompany, AccountType(2, "Job Seeker"), (a: AccountType) => a.id == 1);
    if Find(withCompany, (a: AccountType) => a.id == 2).Some? then withCompany
    else withCompany + [AccountType(2, "Job Seeker")]
  }

  function CompanyAddress(id: int, req: RegisterRequest): Address {
    Address(id, Defaulted(req.companyPremiseName, "N/A"), Defaulted(req.companyStreetName, "N/A"),
            Defaulted(req.companyBarangayName, "N/A"), Defaulted(req.companyCityName, "N/A"))
  }

  function PersonalAddress(id: int, req: RegisterRequest): Address {
    Address(id, Defaulted(req.premiseName, "N/A"), Defaulted(req.streetName, "N/A"),
            Defaulted(req.barangayName, "N/A"), Defaulted(req.cityName, "N/A"))
  }

  /** Account_type 2 is 'Job Seeker'; employees get 1, 'Company'. */
  function AccountTypeId(req: RegisterRequest): int {
    if IsJobSeeker(req) then 2 else 1
  }

  /** DO UPDATE SET code, expires_at: every row of the account takes the new values. */
  function ReplaceCode(codes: seq<VerificationCode>, row: VerificationCode): (r: seq<VerificationCode>)
    ensures |r| == |codes|
  {
    if |codes| == 0 then []
    else [if codes[0].accountId == row.accountId then row else codes[0]] + ReplaceCode(codes[1..], row)
  }

  /** INSERT ... ON CONFLICT (account_id) DO UPDATE: replace the account's code, or add one. */
  function UpsertCode(codes: seq<VerificationCode>, row: VerificationCode): seq<VerificationCode> {
    if exists k :: 0 <= k < |codes| && codes[k].accountId == row.accountId then ReplaceCode(codes, row)
    else codes + [row]
  }

  function IsCodeOf(accountId: int): VerificationCode -> bool {
    (c: VerificationCode) => c.accountId == accountId
  }

  /** The codes stored for one account. */
  function CodesOf(codes: seq<VerificationCode>, accountId: int): seq<VerificationCode> {
    Filter(codes, IsCodeOf(accountId))
  }

  /** The primary key of Verification_codes: at most one row per account. */
  ghost predicate OneCodePerAccount(codes: seq<VerificationCode>) {
    forall a :: |CodesOf(codes, a)| <= 1
  }

  /** Replacing touches only the rows of `row`'s account, and turns each into `row`. */
  lemma {:induction false} ReplaceCodeRows(codes: seq<VerificationCode>, row: VerificationCode, a: int)
    ensures a != row.accountId ==> CodesOf(ReplaceCode(codes, row), a) == CodesOf(codes, a)
    ensures a == row.accountId ==> |CodesOf(ReplaceCode(codes, row), a)| == |CodesOf(codes, a)|
    ensures a == row.accountId ==> forall c :: c in CodesOf(ReplaceCode(codes, row), a) ==> c == row
  {
    if |codes| > 0 {
      ReplaceCodeRows(codes[1..], row, a);
      var r := ReplaceCode(codes, row);
      assert r[1..] == ReplaceCode(codes[1..], row);
    }
  }

  lemma UpsertReplacing(codes: seq<VerificationCode>, row: VerificationCode, k: nat)
    requires OneCodePerAccount(codes)
    requires k < |codes| && codes[k].accountId == row.accountId
    ensures CodesOf(ReplaceCode(codes, row), row.accountId) == [row]
    ensures forall a :: a != row.accountId ==> CodesOf(ReplaceCode(codes, row), a) == CodesOf(codes, a)
  {
    assert codes[k] in CodesOf(codes, row.accountId);
    assert |CodesOf(codes, row.accountId)| == 1;
    ReplaceCodeRows(codes, row, row.accountId);
    var mine := CodesOf(ReplaceCode(codes, row), row.accountId);
    assert mine[0] in mine;
    forall a | a != row.accountId ensures CodesOf(ReplaceCode(codes, row), a) == CodesOf(codes, a) {
      ReplaceCodeRows(codes, row, a);
    }
  }

  lemma UpsertAppending(codes: seq<VerificationCode>, row: VerificationCode)
    requires forall k :: 0 <= k < |codes| ==> codes[k].accountId != row.accountId
    ensures CodesOf(codes + [row], row.accountId) == [row]
    ensures forall a :: a != row.accountId ==> CodesOf(codes + [row], a) == CodesOf(codes, a)
  {
    FilterAppend(codes, [row], IsCodeOf(row.accountId));
    var none := CodesOf(codes, row.accountId);
    assert none == [] by {
      assert forall c :: c in none ==> c in codes && c.accountId == row.accountId;
    }
    forall a | a != row.accountId ensures CodesOf(codes + [row], a) == CodesOf(codes, a) {
      FilterAppend(codes, [row], IsCodeOf(a));
    }
  }

  /** After the upsert the account has exactly the new code, every other account keeps its
      codes, and the one-row-per-account key still holds. */
  lemma UpsertCodeEffect(codes: seq<VerificationCode>, row: VerificationCode)
    requires OneCodePerAccount(codes)
    ensures CodesOf(UpsertCode(codes, row), row.accountId) == [row]
    ensures forall a :: a != row.accountId ==> CodesOf(UpsertCode(codes, row), a) == CodesOf(codes, a)
    ensures OneCodePerAccount(UpsertCode(codes, row))
  {
    var r := UpsertCode(codes, row);
    if exists k :: 0 <= k < |codes| && codes[k].accountId == row.accountId {
      var k :| 0 <= k < |codes| && codes[k].accountId == row.accountId;
      UpsertReplacing(codes, row, k);
    } else {
      UpsertAppending(codes, row);
    }
    forall a ensures |CodesOf(r, a)| <= 1 {
      if a != row.accountId {
        assert CodesOf(r, a) == CodesOf(codes, a);
      }
    }
  }

  /** The company branch after its duplicate check: one Address and one Company. */
  function InsertCompany(t: Tables, req: RegisterRequest): (r: (Tables, int))
    requires Truthy(req.companyName) && Truthy(req.companyEmail)
  {
    var addressId := NextId(AddressIds(t.addresses));
    var companyId := NextId(CompanyIds(t.companies));
    var company := Company(companyId, req.companyName.value, req.companyEmail.value, req.companyPhone,
                           req.companyWebsite, req.companyDescription, addressId, None);
    (t.(addresses := t.addresses + [CompanyAddress(addressId, req)],
        companies := t.companies + [company]), companyId)
  }

  /** The account branch after its duplicate check: account types, nationality, Address,
      Person, Account, the role row and the verification code. */
  function InsertAccount(t: Tables, req: RegisterRequest, passwordHash: string, now: nat, code: string)
    : (r: (Tables, int))
    requires RequiredFields(req)
    requires IsEmployee(req) ==> CompanyIdReadable(req)
  {
    var types := EnsureAccountTypes(t.accountTypes);
    var (nationalities, nationalityId) :=
      FindOrCreateNationality(t.nationalities, Defaulted(req.nationalityName, "Filipino"));
    var addressId := NextId(AddressIds(t.addresses));
    var personId := NextId(PersonIds(t.persons));
    var accountId := NextId(AccountIds(t.accounts));
    var person := Person(personId, req.firstName, req.lastName, req.middleName, addressId, nationalityId);
    var account := Account(accountId, req.email.value, req.username.value, req.phone, AccountNumber(now),
                           passwordHash, AccountTypeId(req), false, None, None);
    var t1 := t.(accountTypes := types, nationalities := nationalities,
                 addresses := t.addresses + [PersonalAddress(addressId, req)],
                 persons := t.persons + [person], accounts := t.accounts + [account]);
    var t2 :=
      if IsJobSeeker(req) then
        t1.(seekers := t1.seekers + [JobSeeker(NextId(SeekerIds(t1.seekers)), personId, accountId)])
      else if IsEmployee(req) then
        t1.(employees := t1.employees + [Employee(NextId(EmployeeIds(t1.employees)), personId, accountId,
                                                  CompanyNumber(req), "Employee")])
      else t1;
    (t2.(codes := UpsertCode(t2.codes, VerificationCode(accountId, code, now + CodeLifetime))), accountId)
  }

  /** The whole handler: its response and the tables after COMMIT (or as before, on ROLLBACK).
      `passwordHash` is what bcrypt returned, `now` the clock, `rand` is
      `floor(Math.random() * 900000)`, `fault` an error raised by one of the transaction's writes,
      and `emailSent` what sending the verification email reported. */
  function Register(t: Tables, req: RegisterRequest, passwordHash: string, now: nat, rand: int,
                    fault: Option<DbError>, emailSent: bool): (out: (Response<Registered>, Tables))
    requires 0 <= rand < 900000
    ensures out.0.Fail? ==> out.1 == t
    ensures out.0.Success? ==> out.0.status == 201
    ensures !Acceptable(t, req) ==> out.0.Fail? && Precheck(t, req) == Some(out.0)
    ensures (!Acceptable(t, req) && !(OwnChecksPass(req) && IsEmployee(req) && CompanyIdRejected(req)))
              ==> out.0.status == 400
    ensures (Acceptable(t, req) && IsCompany(req) && Find(t.companies, CompanyEmailIs(req.companyEmail.value)).Some?)
              ==> out.0 == Fail(409, DuplicateCompanyMessage)
    ensures (Acceptable(t, req) && !IsCompany(req)
            && Find(t.accounts, SameCredentials(req.email.value, req.username.value)).Some?)
              ==> out.0 == Fail(409, DuplicateAccountMessage)
    ensures out.0.Success? <==> (
      && Acceptable(t, req) && fault.None?
      && if IsCompany(req) then Find(t.companies, CompanyEmailIs(req.companyEmail.value)).None?
         else Find(t.accounts, SameCredentials(req.email.value, req.username.value)).None?)
  {
    match Precheck(t, req)
    case Some(rejected) => (rejected, t)
    case None =>
      if IsCompany(req) then CompanyBranch(t, req, fault)
      else AccountBranch(t, req, passwordHash, now, rand, fault, emailSent)
  }

  /** After the pre-checks, a company: the duplicate-email check, then the inserts. */
  function CompanyBranch(t: Tables, req: RegisterRequest, fault: Option<DbError>)
    : (out: (Response<Registered>, Tables))
    requires Truthy(req.companyName) && Truthy(req.companyEmail)
    ensures out.0.Fail? ==> out.1 == t
    ensures out.0.Success? ==> out.0.status == 201
    ensures out.0.Success? <==> fault.None? && Find(t.companies, CompanyEmailIs(req.companyEmail.value)).None?
    ensures (Find(t.companies, CompanyEmailIs(req.companyEmail.value)).Some?)
              ==> out.0 == Fail(409, DuplicateCompanyMessage)
  {
    if Find(t.companies, CompanyEmailIs(req.companyEmail.value)).Some? then
      (Fail(409, DuplicateCompanyMessage), t)
    else if fault.Some? then (ErrorResponse(fault.value), t)
    else
      var (t', companyId) := InsertCompany(t, req);
      (Success(201, CompanyCreated(CompanyCreatedPrefix
                                   + DecimalString(companyId), companyId, "company")), t')
  }

  /** After the pre-checks, a job seeker or employee: the duplicate check, then the inserts. */
  function AccountBranch(t: Tables, req: RegisterRequest, passwordHash: string, now: nat, rand: int,
                         fault: Option<DbError>, emailSent: bool): (out: (Response<Registered>, Tables))
    requires 0 <= rand < 900000
    requires RequiredFields(req) && req.userType.Some?
    requires IsEmployee(req) ==> CompanyIdReadable(req)
    ensures out.0.Fail? ==> out.1 == t
    ensures out.0.Success? ==> out.0.status == 201
    ensures out.0.Success? <==>
              fault.None? && Find(t.accounts, SameCredentials(req.email.value, req.username.value)).None?
    ensures (Find(t.accounts, SameCredentials(req.email.value, req.username.value)).Some?)
              ==> out.0 == Fail(409, DuplicateAccountMessage)
  {
    if Find(t.accounts, SameCredentials(req.email.value, req.username.value)).Some? then
      (Fail(409, DuplicateAccountMessage), t)
    else if fault.Some? then (ErrorResponse(fault.value), t)
    else
      var (t', accountId) := InsertAccount(t, req, passwordHash, now, GenerateVerificationCode(rand));
      (Success(201, AccountCreated(AccountCreatedMessage,
                                   accountId, req.userType.value, emailSent)), t')
  }

  /** A registered company: one new Address and one new Company carrying the request's fields and
      the id the response reports; no other table changes. */
  lemma RegisterCompanyEffect(t: Tables, req: RegisterRequest, passwordHash: string, now: nat, rand: int,
                              fault: Option<DbError>, emailSent: bool)
    requires 0 <= rand < 900000
    requires IsCompany(req)
    requires Register(t, req, passwordHash, now, rand, fault, emailSent).0.Success?
    ensures var (resp, t') := Register(t, req, passwordHash, now, rand, fault, emailSent);
      && t'.(addresses := t.addresses, companies := t.companies) == t
      && |t'.addresses| == |t.addresses| + 1 && t'.addresses[..|t.addresses|] == t.addresses
      && |t'.companies| == |t.companies| + 1 && t'.companies[..|t.companies|] == t.companies
      && resp.body.CompanyCreated?
      && var c := t'.companies[|t.companies|];
         && c.id == resp.body.companyId && c.id !in CompanyIds(t.companies)
         && c.name == req.companyName.value && c.email == req.companyEmail.value
         && c.addressId == t'.addresses[|t.addresses|].id && c.rating.None?
  {
    var (t', companyId) := InsertCompany(t, req);
    assert t'.addresses[..|t.addresses|] == t.addresses;
    assert t'.companies[..|t.companies|] == t.companies;
  }

  /** The rows the account branch writes, before its verification code. */
  lemma {:induction false} InsertAccountRows(t: Tables, req: RegisterRequest, passwordHash: string, now: nat,
                                             code: string)
    requires RequiredFields(req)
    requires IsEmployee(req) ==> CompanyIdReadable(req)
    ensures var (t', id) := InsertAccount(t, req, passwordHash, now, code);
      && t'.(addresses := t.addresses, nationalities := t.nationalities, persons := t.persons,
             accountTypes := t.accountTypes, accounts := t.accounts, seekers := t.seekers,
             employees := t.employees, codes := t.codes) == t
      && |t'.addresses| == |t.addresses| + 1 && t'.addresses[..|t.addresses|] == t.addresses
      && var a := t'.addresses[|t.addresses|];
      && a.id !in AddressIds(t.addresses)
      && a == Address(a.id, Defaulted(req.premiseName, "N/A"), Defaulted(req.streetName, "N/A"),
                      Defaulted(req.barangayName, "N/A"), Defaulted(req.cityName, "N/A"))
      && |t'.persons| == |t.persons| + 1 && t'.persons[..|t.persons|] == t.persons
      && id !in AccountIds(t.accounts)
      && t'.accounts == t.accounts + [Account(id, req.email.value, req.username.value, req.phone,
                                              AccountNumber(now), passwordHash, AccountTypeId(req),
                                              false, None, None)]
      && var p := t'.persons[|t.persons|];
      && p.firstName == req.firstName && p.lastName == req.lastName && p.middleName == req.middleName
      && p.addressId == t'.addresses[|t.addresses|].id
      && Find(t'.nationalities, NamedNationality(Defaulted(req.nationalityName, "Filipino")))
           == Some(Nationality(p.nationalityId, Defaulted(req.nationalityName, "Filipino")))
      && (IsJobSeeker(req) ==>
            && t'.employees == t.employees && |t'.seekers| == |t.seekers| + 1
            && t'.seekers[..|t.seekers|] == t.seekers
            && t'.seekers[|t.seekers|].personId == p.id && t'.seekers[|t.seekers|].accountId == id)
      && (IsEmployee(req) ==>
            && t'.seekers == t.seekers && |t'.employees| == |t.employees| + 1
            && t'.employees[..|t.employees|] == t.employees
            && t'.employees[|t.employees|]
                 == Employee(t'.employees[|t.employees|].id, p.id, id, CompanyNumber(req), "Employee"))
  {
    var (t', id) := InsertAccount(t, req, passwordHash, now, code);
    assert t'.addresses[..|t.addresses|] == t.addresses;
    assert t'.persons[..|t.persons|] == t.persons;
    assert t'.seekers[..|t.seekers|] == t.seekers;
    assert t'.employees[..|t.employees|] == t.employees;
  }

  /** The account branch leaves the new account exactly one verification code. */
  lemma InsertAccountCode(t: Tables, req: RegisterRequest, passwordHash: string, now: nat, code: string)
    requires RequiredFields(req)
    requires IsEmployee(req) ==> CompanyIdReadable(req)
    requires OneCodePerAccount(t.codes)
    ensures var (t', id) := InsertAccount(t, req, passwordHash, now, code);
      && CodesOf(t'.codes, id) == [VerificationCode(id, code, now + CodeLifetime)]
      && (forall a :: a != id ==> CodesOf(t'.codes, a) == CodesOf(t.codes, a))
      && OneCodePerAccount(t'.codes)
  {
    var (t', id) := InsertAccount(t, req, passwordHash, now, code);
    UpsertCodeEffect(t.codes, VerificationCode(id, code, now + CodeLifetime));
  }

  /** On success the account branch's answer and tables are InsertAccount's. */
  lemma RegisterAccountIsInsert(t: Tables, req: RegisterRequest, passwordHash: string, now: nat, rand: int,
                                fault: Option<DbError>, emailSent: bool)
    requires 0 <= rand < 900000
    requires !IsCompany(req)
    requires Register(t, req, passwordHash, now, rand, fault, emailSent).0.Success?
    ensures RequiredFields(req) && (IsEmployee(req) ==> CompanyExists(t, req))
    ensures var (resp, t') := Register(t, req, passwordHash, now, rand, fault, emailSent);
      && resp.body.AccountCreated?
      && (t', resp.body.userId) == InsertAccount(t, req, passwordHash, now, GenerateVerificationCode(rand))
  {
  }

  /** A registered job seeker or employee: one Address, one Person, one unverified Account
      (type 2 for job seekers, 1 for employees), one Job_seeker or Employee row, and a verification
      code that is the account's only one; companies, jobs and the rest are untouched. */
  lemma RegisterAccountEffect(t: Tables, req: RegisterRequest, passwordHash: string, now: nat, rand: int,
                              fault: Option<DbError>, emailSent: bool)
    requires 0 <= rand < 900000
    requires OneCodePerAccount(t.codes)
    requires !IsCompany(req)
    requires Register(t, req, passwordHash, now, rand, fault, emailSent).0.Success?
    ensures var (resp, t') := Register(t, req, passwordHash, now, rand, fault, emailSent);
      && resp.body.AccountCreated?
      && var id := resp.body.userId;
      && id !in AccountIds(t.accounts)
      && t'.accounts == t.accounts + [Account(id, req.email.value, req.username.value, req.phone,
                                              AccountNumber(now), passwordHash, AccountTypeId(req),
                                              false, None, None)]
      && t'.companies == t.companies && t'.jobs == t.jobs && t'.requests == t.requests
      && (IsJobSeeker(req) ==> |t'.seekers| == |t.seekers| + 1 && t'.seekers[|t.seekers|].accountId == id)
      && (IsEmployee(req) ==>
            && |t'.employees| == |t.employees| + 1
            && t'.employees[|t.employees|].accountId == id
            && req.companyId.Some?
            && ReadCompanyId(req.companyId.value) == IdNumber(t'.employees[|t.employees|].companyId)
            && CompanyById(t, t'.employees[|t.employees|].companyId).Some?)
      && CodesOf(t'.codes, id) == [VerificationCode(id, GenerateVerificationCode(rand), now + CodeLifetime)]
      && OneCodePerAccount(t'.codes)
  {
    RegisterAccountIsInsert(t, req, passwordHash, now, rand, fault, emailSent);
    InsertAccountRows(t, req, passwordHash, now, GenerateVerificationCode(rand));
    InsertAccountCode(t, req, passwordHash, now, GenerateVerificationCode(rand));
  }

  /** No two accounts share an email or a username. */
  predicate UniqueCredentials(accounts: seq<Account>) {
    forall i, j :: 0 <= i < j < |accounts| ==>
      accounts[i].email != accounts[j].email && accounts[i].username != accounts[j].username
  }

  /** The duplicate check before the INSERT keeps emails and usernames unique. */
  lemma RegisterKeepsCredentialsUnique(t: Tables, req: RegisterRequest, passwordHash: string, now: nat,
                                       rand: int, fault: Option<DbError>, emailSent: bool)
    requires 0 <= rand < 900000
    requires UniqueCredentials(t.accounts)
    ensures UniqueCredentials(Register(t, req, passwordHash, now, rand, fault, emailSent).1.accounts)
  {
    var (resp, t') := Register(t, req, passwordHash, now, rand, fault, emailSent);
    if resp.Success? && !IsCompany(req) {
      RegisterAccountIsInsert(t, req, passwordHash, now, rand, fault, emailSent);
      InsertAccountRows(t, req, passwordHash, now, GenerateVerificationCode(rand));
      var p := SameCredentials(req.email.value, req.username.value);
      assert forall k :: 0 <= k < |t.accounts| ==> !p(t.accounts[k]);
      AppendKeepsUnique(t.accounts, t'.accounts[|t.accounts|]);
    }
  }

  /** An account whose email and username are both new keeps the credentials unique. */
  lemma AppendKeepsUnique(accounts: seq<Account>, a: Account)
    requires UniqueCredentials(accounts)
    requires forall k :: 0 <= k < |accounts| ==> !SameCredentials(a.email, a.username)(accounts[k])
    ensures UniqueCredentials(accounts + [a])
  {
    var s := accounts + [a];
    forall i, j | 0 <= i < j < |s|
      ensures s[i].email != s[j].email && s[i].username != s[j].username
    {
      if j == |accounts| {
        assert !SameCredentials(a.email, a.username)(accounts[i]);
      }
    }
  }

  /** A failing write inside the transaction rolls everything back and answers by its SQLSTATE. */
  lemma RegisterRollsBack(t: Tables, req: RegisterRequest, passwordHash: string, now: nat, rand: int,
                          e: DbError, emailSent: bool)
    requires 0 <= rand < 900000
    requires Acceptable(t, req)
    requires IsCompany(req) ==> Find(t.companies, CompanyEmailIs(req.companyEmail.value)).None?
    requires !IsCompany(req) ==> Find(t.accounts, SameCredentials(req.email.value, req.username.value)).None?
    ensures Register(t, req, passwordHash, now, rand, Some(e), emailSent) == (ErrorResponse(e), t)
  {
  }

  /** Whether the email went out changes only the `emailSent` field of the answer. */
  lemma RegisterEmailOnlyReported(t: Tables, req: RegisterRequest, passwordHash: string, now: nat, rand: int,
                                  fault: Option<DbError>)
    requires 0 <= rand < 900000
    ensures var (sent, t1) := Register(t, req, passwordHash, now, rand, fault, true);
            var (unsent, t2) := Register(t, req, passwordHash, now, rand, fault, false);
            && t1 == t2 && sent.status == unsent.status
            && (sent.Success? && sent.body.AccountCreated? ==> sent.body.(emailSent := false) == unsent.body)
  {
  }

  /** The handler: the pre-checks, then BEGIN, the writes of one branch, and COMMIT, or ROLLBACK
      when a duplicate is found or a write raises `fault`. */
  method Post(db: Database, req: RegisterRequest, passwordHash: string, now: nat, rand: int,
              fault: Option<DbError>, emailSent: bool) returns (resp: Response<Registered>)
    requires 0 <= rand < 900000
    modifies db
    ensures (resp, db.t) == Register(old(db.t), req, passwordHash, now, rand, fault, emailSent)
  {
    var rejected := Precheck(db.t, req);
    if rejected.Some? {
      return rejected.value;
    }
    if IsCompany(req) {
      resp := PostCompany(db, req, fault);
    } else {
      resp := PostAccount(db, req, passwordHash, now, rand, fault, emailSent);
    }
  }

  /** The company branch inside the transaction. */
  method PostCompany(db: Database, req: RegisterRequest, fault: Option<DbError>)
    returns (resp: Response<Registered>)
    requires Truthy(req.companyName) && Truthy(req.companyEmail)
    modifies db
    ensures (resp, db.t) == CompanyBranch(old(db.t), req, fault)
  {
    var saved := db.t;
    if Find(db.t.companies, CompanyEmailIs(req.companyEmail.value)).Some? {
      db.t := saved;
      return Fail(409, DuplicateCompanyMessage);
    }
    var addressId := NextId(AddressIds(db.t.addresses));
    db.t := db.t.(addresses := db.t.addresses + [CompanyAddress(addressId, req)]);
    var companyId := NextId(CompanyIds(db.t.companies));
    db.t := db.t.(companies := db.t.companies + [Company(companyId, req.companyName.value,
      req.companyEmail.value, req.companyPhone, req.companyWebsite, req.companyDescription, addressId, None)]);
    if fault.Some? {
      db.t := saved;
      return ErrorResponse(fault.value);
    }
    return Success(201, CompanyCreated(CompanyCreatedPrefix
                                       + DecimalString(companyId), companyId, "company"));
  }

  /** The job-seeker and employee branch inside the transaction. */
  method PostAccount(db: Database, req: RegisterRequest, passwordHash: string, now: nat, rand: int,
                     fault: Option<DbError>, emailSent: bool) returns (resp: Response<Registered>)
    requires 0 <= rand < 900000
    requires RequiredFields(req) && req.userType.Some?
    requires IsEmployee(req) ==> CompanyIdReadable(req)
    modifies db
    ensures (resp, db.t) == AccountBranch(old(db.t), req, passwordHash, now, rand, fault, emailSent)
  {
    var saved := db.t;
    if Find(db.t.accounts, SameCredentials(req.email.value, req.username.value)).Some? {
      db.t := saved;
      return Fail(409, DuplicateAccountMessage);
    }
    db.t := db.t.(accountTypes := EnsureAccountTypes(db.t.accountTypes));
    var nationalities, nationalityId :=
      FindOrCreateNationality(db.t.nationalities, Defaulted(req.nationalityName, "Filipino")).0,
      FindOrCreateNationality(db.t.nationalities, Defaulted(req.nationalityName, "Filipino")).1;
    db.t := db.t.(nationalities := nationalities);
    var addressId := NextId(AddressIds(db.t.addresses));
    db.t := db.t.(addresses := db.t.addresses + [PersonalAddress(addressId, req)]);
    var personId := NextId(PersonIds(db.t.persons));
    db.t := db.t.(persons := db.t.persons
                    + [Person(personId, req.firstName, req.lastName, req.middleName, addressId, nationalityId)]);
    var accountId := NextId(AccountIds(db.t.accounts));
    db.t := db.t.(accounts := db.t.accounts + [Account(accountId, req.email.value, req.username.value,
      req.phone, AccountNumber(now), passwordHash, AccountTypeId(req), false, None, None)]);
    if IsJobSeeker(req) {
      db.t := db.t.(seekers := db.t.seekers + [JobSeeker(NextId(SeekerIds(db.t.seekers)), personId, accountId)]);
    } else if IsEmployee(req) {
      db.t := db.t.(employees := db.t.employees + [Employee(NextId(EmployeeIds(db.t.employees)), personId,
                                                            accountId, CompanyNumber(req), "Employee")]);
    }
    var code := GenerateVerificationCode(rand);
    db.t := db.t.(codes := UpsertCode(db.t.codes, VerificationCode(accountId, code, now + CodeLifetime)));
    if fault.Some? {
      db.t := saved;
      return ErrorResponse(fault.value);
    }
    return Success(201, AccountCreated(AccountCreatedMessage,
                                       accountId, req.userType.value, emailSent));
  }
}
