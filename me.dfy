/** GET /api/auth/me: the profile of the token's account, joined from its job-seeker and employee
    rows; where both exist, the job seeker's person, address and nationality win. */
module MeRoute {
  import opened Wrappers
  import opened Lists
  import opened Http
  import opened Schema
  import opened Auth

  datatype MeAddress = MeAddress(premise: Option<string>, street: Option<string>,
                                 barangay: Option<string>, city: Option<string>)

  datatype Me = Me(
    id: int, username: string, email: string,
    firstName: Option<string>, lastName: Option<string>, middleName: Option<string>,
    companyName: Option<string>, position: Option<string>, employeeId: Option<int>,
    accountType: string, userType: string, isVerified: bool,
    isJobSeeker: bool, isEmployee: bool, address: MeAddress, nationality: Option<string>)

  /** A person reached through a LEFT JOIN, with its address and nationality. */
  datatype Side = Side(person: Option<Person>, address: Option<Address>, nationality: Option<Nationality>)

  function SideOf(t: Tables, personId: Option<int>): Side {
    var p := if personId.Some? then PersonById(t, personId.value) else None;
    Side(p,
         if p.Some? then AddressById(t, p.value.addressId) else None,
         if p.Some? then NationalityById(t, p.value.nationalityId) else None)
  }

  function FirstName(s: Side): Option<string> { if s.person.Some? then s.person.value.firstName else None }
  function LastName(s: Side): Option<string> { if s.person.Some? then s.person.value.lastName else None }
  function MiddleName(s: Side): Option<string> { if s.person.Some? then s.person.value.middleName else None }
  function Premise(s: Side): Option<string> { if s.address.Some? then Some(s.address.value.premise) else None }
  function Street(s: Side): Option<string> { if s.address.Some? then Some(s.address.value.street) else None }
  function Barangay(s: Side): Option<string> { if s.address.Some? then Some(s.address.value.barangay) else None }
  function City(s: Side): Option<string> { if s.address.Some? then Some(s.address.value.city) else None }
  function NationalityName(s: Side): Option<string> {
    if s.nationality.Some? then Some(s.nationality.value.name) else None
  }

  /** The first row of the joined query for an account, given that its account type joined. */
  function Profile(t: Tables, a: Account, typeName: string): (m: Me)
    ensures m.id == a.id && m.email == a.email && m.username == a.username && m.isVerified == a.verified
    ensures m.userType == (if typeName == "Company" then "employer" else "job-seeker")
    ensures m.isJobSeeker <==> SeekerOf(t, a.id).Some? && SeekerOf(t, a.id).value.id != 0
    ensures m.isEmployee <==> EmployeeOf(t, a.id).Some? && EmployeeOf(t, a.id).value.id != 0
  {
    var js := SeekerOf(t, a.id);
    var e := EmployeeOf(t, a.id);
    var sj := SideOf(t, if js.Some? then Some(js.value.personId) else None);
    var se := SideOf(t, if e.Some? then Some(e.value.personId) else None);
    var company := if e.Some? then CompanyById(t, e.value.companyId) else None;
    var employeeId := if e.Some? then Some(e.value.id) else None;
    Me(a.id, a.username, a.email,
       FirstName(sj).OrElse(FirstName(se)), LastName(sj).OrElse(LastName(se)),
       MiddleName(sj).OrElse(MiddleName(se)),
       if company.Some? then Some(company.value.name) else None,
       if e.Some? then Some(e.value.position) else None,
       employeeId,
       typeName, if typeName == "Company" then "employer" else "job-seeker", a.verified,
       TruthyId(if js.Some? then Some(js.value.id) else None), TruthyId(employeeId),
       MeAddress(Premise(sj).OrElse(Premise(se)), Street(sj).OrElse(Street(se)),
                 Barangay(sj).OrElse(Barangay(se)), City(sj).OrElse(City(se))),
       NationalityName(sj).OrElse(NationalityName(se)))
  }

  function GetMe(t: Tables, header: Option<string>, verify: Verifier): (r: Response<Me>)
    ensures BearerToken(header).None? ==> r == Fail(401, TokenRequired)
    ensures Authenticate(header, verify).BadToken? ==> r == Fail(401, "Invalid or expired token")
    ensures r.Success? <==> (
      && Authenticate(header, verify).Caller?
      && var id := Authenticate(header, verify).payload.userId;
      && AccountById(t, id).Some? && AccountTypeById(t, AccountById(t, id).value.typeId).Some?)
    ensures (Authenticate(header, verify).Caller?
             && var id := Authenticate(header, verify).payload.userId;
                AccountById(t, id).None? || AccountTypeById(t, AccountById(t, id).value.typeId).None?)
              ==> r == Fail(404, "User not found")
    ensures r.Success? ==>
      var a := AccountById(t, Authenticate(header, verify).payload.userId).value;
      r.status == 200 && r.body == Profile(t, a, AccountTypeById(t, a.typeId).value.name)
  {
    match Authenticate(header, verify)
    case NoToken => Fail(401, TokenRequired)
    case BadToken => Fail(401, "Invalid or expired token")
    case Caller(p) =>
      match AccountById(t, p.userId)
      case None => Fail(404, "User not found")
      case Some(a) =>
        match AccountTypeById(t, a.typeId)
        case None => Fail(404, "User not found")
        case Some(at) => Success(200, Profile(t, a, at.name))
  }

  /** The employee's side of the join: the person of the account's Employee row, if any. */
  function EmployeeSide(t: Tables, accountId: int): Side {
    var e := EmployeeOf(t, accountId);
    SideOf(t, if e.Some? then Some(e.value.personId) else None)
  }

  /** COALESCE(job seeker's, employee's): each name field is the job-seeker person's value when
      it has one and the employee person's otherwise; the address and the nationality are the
      job-seeker person's when they join, all four address fields together, and the employee
      person's otherwise. */
  lemma JobSeekerSideWins(t: Tables, a: Account, typeName: string)
    requires SeekerOf(t, a.id).Some?
    requires PersonById(t, SeekerOf(t, a.id).value.personId).Some?
    ensures var p := PersonById(t, SeekerOf(t, a.id).value.personId).value;
            var se := EmployeeSide(t, a.id);
            var m := Profile(t, a, typeName);
            && m.firstName == (if p.firstName.Some? then p.firstName else FirstName(se))
            && m.lastName == (if p.lastName.Some? then p.lastName else LastName(se))
            && m.middleName == (if p.middleName.Some? then p.middleName else MiddleName(se))
            && (AddressById(t, p.addressId).Some? ==>
                  var ad := AddressById(t, p.addressId).value;
                  m.address == MeAddress(Some(ad.premise), Some(ad.street), Some(ad.barangay), Some(ad.city)))
            && (AddressById(t, p.addressId).None? ==>
                  m.address == MeAddress(Premise(se), Street(se), Barangay(se), City(se)))
            && (NationalityById(t, p.nationalityId).Some? ==>
                  m.nationality == Some(NationalityById(t, p.nationalityId).value.name))
            && (NationalityById(t, p.nationalityId).None? ==> m.nationality == NationalityName(se))
  {
  }

  /** Without a job-seeker person, every person, address and nationality field is the employee
      person's (absent when there is none). */
  lemma EmployeeSideOtherwise(t: Tables, a: Account, typeName: string)
    requires SeekerOf(t, a.id).None? || PersonById(t, SeekerOf(t, a.id).value.personId).None?
    ensures var se := EmployeeSide(t, a.id);
            var m := Profile(t, a, typeName);
            && m.firstName == FirstName(se) && m.lastName == LastName(se) && m.middleName == MiddleName(se)
            && m.address == MeAddress(Premise(se), Street(se), Barangay(se), City(se))
            && m.nationality == NationalityName(se)
  {
  }

  /** An account with no employee row reports no company, position or employee id. */
  lemma NoEmployeeNoCompany(t: Tables, a: Account, typeName: string)
    requires EmployeeOf(t, a.id).None?
    ensures var m := Profile(t, a, typeName);
            m.companyName.None? && m.position.None? && m.employeeId.None? && !m.isEmployee
  {
  }
}
