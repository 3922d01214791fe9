/** POST /api/profile/update: inside one transaction, find or create the nationality, rewrite
    the caller's address and person when they exist, always set the phone, and store a
    non-empty photo, and a non-empty resume for job seekers. */
module ProfileUpdateRoute {
  import opened Wrappers
  import opened Lists
  import opened Http
  import opened Schema
  import opened Auth

  /** The multipart form; a missing field or file is None. */
  datatype ProfileForm = ProfileForm(
    firstName: Option<string>, lastName: Option<string>, middleName: Option<string>,
    phone: Option<string>, premiseName: Option<string>, streetName: Option<string>,
    barangayName: Option<string>, cityName: Option<string>, nationality: Option<string>,
    profilePhoto: Option<Bytes>, resume: Option<Bytes>)

  /** The first row of the account's LEFT JOINs with Job_seeker, Employee and their persons. */
  datatype UserRow = UserRow(personId: Option<int>, addressId: Option<int>, nationalityId: Option<int>,
                             seekerId: Option<int>, employeeId: Option<int>)

  function UserOf(t: Tables, accountId: int): (r: Option<UserRow>)
    ensures r.Some? <==> AccountById(t, accountId).Some?
    ensures r.Some? ==> (TruthyId(r.value.seekerId) <==> SeekerOf(t, accountId).Some? && SeekerOf(t, accountId).value.id != 0)
  {
    if AccountById(t, accountId).None? then None
    else
      var js := SeekerOf(t, accountId);
      var e := EmployeeOf(t, accountId);
      var pjs := if js.Some? then PersonById(t, js.value.personId) else None;
      var pe := if e.Some? then PersonById(t, e.value.personId) else None;
      Some(UserRow(
        (if js.Some? then Some(js.value.personId) else None).OrElse(if e.Some? then Some(e.value.personId) else None),
        (if pjs.Some? then Some(pjs.value.addressId) else None).OrElse(if pe.Some? then Some(pe.value.addressId) else None),
        (if pjs.Some? then Some(pjs.value.nationalityId) else None).OrElse(if pe.Some? then Some(pe.value.nationalityId) else None),
        if js.Some? then Some(js.value.id) else None,
        if e.Some? then Some(e.value.id) else None))
  }

  function AddressIdIs(id: int): Address -> bool { (a: Address) => a.id == id }
  function PersonIdIs(id: int): Person -> bool { (p: Person) => p.id == id }

  function SetAddress(premise: string, street: string, barangay: string, city: string): Address -> Address {
    (a: Address) => a.(premise := premise, street := street, barangay := barangay, city := city)
  }

  function SetPerson(first: Option<string>, last: Option<string>, middle: Option<string>, nationalityId: int)
    : Person -> Person
  {
    (p: Person) => p.(firstName := first, lastName := last, middleName := middle, nationalityId := nationalityId)
  }

  function SetPhone(phone: Option<string>): Account -> Account { (a: Account) => a.(phone := phone) }
  function SetPhoto(photo: Bytes): Account -> Account { (a: Account) => a.(photo := Some(photo)) }
  function SetResume(resume: Bytes): Account -> Account { (a: Account) => a.(resume := Some(resume)) }

  /** `formData.get(name) || fallback`. */
  function Field(v: Option<string>, fallback: string): string { OrDefault(v, fallback) }

  /** `file && file.size > 0`. */
  predicate NonEmptyFile(f: Option<Bytes>) { f.Some? && |f.value| > 0 }

  /** UPDATE Address, made only when the joined row carries an address id. */
  function AddressWrites(addresses: seq<Address>, u: UserRow, form: ProfileForm): seq<Address> {
    if TruthyId(u.addressId) then
      UpdateWhere(addresses, AddressIdIs(u.addressId.value),
        SetAddress(Field(form.premiseName, ""), Field(form.streetName, ""),
                   Field(form.barangayName, ""), Field(form.cityName, "")))
    else addresses
  }

  /** UPDATE Person, made only when the joined row carries a person id. */
  function PersonWrites(persons: seq<Person>, u: UserRow, form: ProfileForm, nationalityId: int): seq<Person> {
    if TruthyId(u.personId) then
      UpdateWhere(persons, PersonIdIs(u.personId.value),
        SetPerson(form.firstName, form.lastName, Some(Field(form.middleName, "")), nationalityId))
    else persons
  }

  /** The three UPDATEs of Account: the phone, then a non-empty photo, then a non-empty resume of
      a job seeker. */
  function AccountWrites(accounts: seq<Account>, accountId: int, u: UserRow, form: ProfileForm): seq<Account> {
    var phoned := UpdateWhere(accounts, AccountIdIs(accountId), SetPhone(Some(Field(form.phone, ""))));
    var pictured :=
      if NonEmptyFile(form.profilePhoto) then UpdateWhere(phoned, AccountIdIs(accountId), SetPhoto(form.profilePhoto.value))
      else phoned;
    if NonEmptyFile(form.resume) && TruthyId(u.seekerId) then
      UpdateWhere(pictured, AccountIdIs(accountId), SetResume(form.resume.value))
    else pictured
  }

  /** The writes of the transaction. Each statement touches its own table, so their order does
      not matter. The nationality is always looked up (or created), since it falls back to
      'Filipino' and so is never falsy. */
  function Writes(t: Tables, accountId: int, u: UserRow, form: ProfileForm): Tables {
    var (nationalities, nationalityId) := FindOrCreateNationality(t.nationalities, Field(form.nationality, "Filipino"));
    t.(nationalities := nationalities,
       addresses := AddressWrites(t.addresses, u, form),
       persons := PersonWrites(t.persons, u, form, nationalityId),
       accounts := AccountWrites(t.accounts, accountId, u, form))
  }

  const UpdateFailed := "Failed to update profile"
  const UserMissing := "User not found"
  const Updated := "Profile updated successfully"

  /** The handler; `fault` says whether one of the transaction's statements raises. */
  function Update(t: Tables, header: Option<string>, verify: Verifier, form: ProfileForm, fault: bool)
    : (out: (Response<string>, Tables))
    ensures out.0.Fail? ==> out.1 == t
    ensures Authenticate(header, verify).NoToken? ==> out.0 == Fail(401, TokenRequired)
    ensures Authenticate(header, verify).BadToken? ==> out.0 == Fail(500, UpdateFailed)
    ensures (Authenticate(header, verify).Caller? && AccountById(t, Authenticate(header, verify).payload.userId).None?)
              ==> out.0 == Fail(404, UserMissing)
    ensures out.0.Success? <==> (
      && Authenticate(header, verify).Caller? && !fault
      && AccountById(t, Authenticate(header, verify).payload.userId).Some?)
  {
    match Authenticate(header, verify)
    case NoToken => (Fail(401, TokenRequired), t)
    case BadToken => (Fail(500, UpdateFailed), t)
    case Caller(p) =>
      match UserOf(t, p.userId)
      case None => (Fail(404, UserMissing), t)
      case Some(u) =>
        if fault then (Fail(500, UpdateFailed), t)
        else (Success(200, Updated), Writes(t, p.userId, u, form))
  }

  /** Only Nationality, Address, Person and Account can change; Nationality gains at most the
      one named row, and the id the person rows receive names that nationality. */
  lemma WritesNationality(t: Tables, accountId: int, u: UserRow, form: ProfileForm)
    ensures var t' := Writes(t, accountId, u, form);
      var name := Field(form.nationality, "Filipino");
      && t'.(nationalities := t.nationalities, addresses := t.addresses, persons := t.persons,
             accounts := t.accounts) == t
      && (t'.nationalities == t.nationalities || exists n :: t'.nationalities == t.nationalities + [Nationality(n, name)])
      && Find(t'.nationalities, NamedNationality(name)).Some?
      && (TruthyId(u.personId) ==>
            forall k :: 0 <= k < |t'.persons| && t'.persons[k].id == u.personId.value ==>
              Find(t'.nationalities, NamedNationality(name)) == Some(Nationality(t'.persons[k].nationalityId, name)))
      && (Distinct(NationalityIds(t.nationalities)) ==>
            && Distinct(NationalityIds(t'.nationalities))
            && (TruthyId(u.personId) ==>
                  forall k :: 0 <= k < |t'.persons| && t'.persons[k].id == u.personId.value ==>
                    NationalityById(t', t'.persons[k].nationalityId)
                      == Some(Nationality(t'.persons[k].nationalityId, name))))
  {
    var name := Field(form.nationality, "Filipino");
    var (nationalities, nationalityId) := FindOrCreateNationality(t.nationalities, name);
    var t' := Writes(t, accountId, u, form);
    assert t'.nationalities == nationalities;
    assert t'.persons == PersonWrites(t.persons, u, form, nationalityId);
    if Distinct(NationalityIds(t.nationalities)) {
      FindOrCreateNationalityById(t.nationalities, name);
    }
  }

  /** The address and person rows are rewritten only when the joined row carries their ids, and
      then only the rows with those ids. */
  lemma WritesAddressAndPerson(t: Tables, accountId: int, u: UserRow, form: ProfileForm)
    ensures var t' := Writes(t, accountId, u, form);
      && |t'.addresses| == |t.addresses| && |t'.persons| == |t.persons|
      && (!TruthyId(u.addressId) ==> t'.addresses == t.addresses)
      && (!TruthyId(u.personId) ==> t'.persons == t.persons)
      && (forall k :: 0 <= k < |t.addresses| && !(TruthyId(u.addressId) && t.addresses[k].id == u.addressId.value)
            ==> t'.addresses[k] == t.addresses[k])
      && (forall k :: 0 <= k < |t.addresses| && TruthyId(u.addressId) && t.addresses[k].id == u.addressId.value
            ==> t'.addresses[k] == Address(t.addresses[k].id, Field(form.premiseName, ""), Field(form.streetName, ""),
                                           Field(form.barangayName, ""), Field(form.cityName, "")))
      && (forall k :: 0 <= k < |t.persons| && !(TruthyId(u.personId) && t.persons[k].id == u.personId.value)
            ==> t'.persons[k] == t.persons[k])
      && (forall k :: 0 <= k < |t.persons| && TruthyId(u.personId) && t.persons[k].id == u.personId.value
            ==> t'.persons[k].firstName == form.firstName && t'.persons[k].lastName == form.lastName
                && t'.persons[k].middleName == Some(Field(form.middleName, ""))
                && t'.persons[k].addressId == t.persons[k].addressId)
  {
    var (nationalities, nationalityId) := FindOrCreateNationality(t.nationalities, Field(form.nationality, "Filipino"));
    var t' := Writes(t, accountId, u, form);
    assert t'.addresses == AddressWrites(t.addresses, u, form);
    assert t'.persons == PersonWrites(t.persons, u, form, nationalityId);
  }

  /** The caller's account always gets the phone (or ''); the photo only when a non-empty one
      was sent; the resume only when a non-empty one was sent and the joined row has a job-seeker
      id. Other accounts, and the account's other columns, stay as they were. */
  lemma WritesAccount(t: Tables, accountId: int, u: UserRow, form: ProfileForm)
    ensures var t' := Writes(t, accountId, u, form);
      && |t'.accounts| == |t.accounts|
      && forall k :: 0 <= k < |t.accounts| ==>
           var (a, a') := (t.accounts[k], t'.accounts[k]);
           if a.id != accountId then a' == a
           else
             && a'.(phone := a.phone, photo := a.photo, resume := a.resume) == a
             && a'.phone == Some(Field(form.phone, ""))
             && a'.photo == (if NonEmptyFile(form.profilePhoto) then form.profilePhoto else a.photo)
             && a'.resume == (if NonEmptyFile(form.resume) && TruthyId(u.seekerId) then form.resume else a.resume)
  {
    var t' := Writes(t, accountId, u, form);
    var a4 := UpdateWhere(t.accounts, AccountIdIs(accountId), SetPhone(Some(Field(form.phone, ""))));
    var a5 := if NonEmptyFile(form.profilePhoto) then UpdateWhere(a4, AccountIdIs(accountId), SetPhoto(form.profilePhoto.value))
              else a4;
    assert t'.accounts == AccountWrites(t.accounts, accountId, u, form);
    forall k | 0 <= k < |t.accounts| && t.accounts[k].id == accountId
      ensures t'.accounts[k].(phone := t.accounts[k].phone, photo := t.accounts[k].photo, resume := t.accounts[k].resume)
              == t.accounts[k]
    {
      assert a4[k].id == accountId && a5[k].id == accountId;
    }
  }

  /** A successful update makes exactly the writes above for the caller's account and joined row. */
  lemma UpdateIsWrites(t: Tables, header: Option<string>, verify: Verifier, form: ProfileForm, fault: bool)
    requires Update(t, header, verify, form, fault).0.Success?
    ensures var id := Authenticate(header, verify).payload.userId;
            && UserOf(t, id).Some?
            && Update(t, header, verify, form, fault).1 == Writes(t, id, UserOf(t, id).value, form)
  {
  }

  method Post(db: Database, header: Option<string>, verify: Verifier, form: ProfileForm, fault: bool)
    returns (resp: Response<string>)
    modifies db
    ensures (resp, db.t) == Update(old(db.t), header, verify, form, fault)
  {
    var session := Authenticate(header, verify);
    if session.NoToken? {
      return Fail(401, TokenRequired);
    }
    if session.BadToken? {
      return Fail(500, UpdateFailed);
    }
    var id := session.payload.userId;
    var saved := db.t;
    var user := UserOf(db.t, id);
    if user.None? {
      db.t := saved;
      return Fail(404, UserMissing);
    }
    var u := user.value;
    var nationalityId := u.nationalityId;
    var found := FindOrCreateNationality(db.t.nationalities, Field(form.nationality, "Filipino"));
    db.t := db.t.(nationalities := found.0);
    nationalityId := Some(found.1);
    if TruthyId(u.addressId) {
      db.t := db.t.(addresses := UpdateWhere(db.t.addresses, AddressIdIs(u.addressId.value),
                      SetAddress(Field(form.premiseName, ""), Field(form.streetName, ""),
                                 Field(form.barangayName, ""), Field(form.cityName, ""))));
    }
    if TruthyId(u.personId) {
      db.t := db.t.(persons := UpdateWhere(db.t.persons, PersonIdIs(u.personId.value),
                      SetPerson(form.firstName, form.lastName, Some(Field(form.middleName, "")), nationalityId.value)));
    }
    db.t := db.t.(accounts := UpdateWhere(db.t.accounts, AccountIdIs(id), SetPhone(Some(Field(form.phone, "")))));
    if NonEmptyFile(form.profilePhoto) {
      db.t := db.t.(accounts := UpdateWhere(db.t.accounts, AccountIdIs(id), SetPhoto(form.profilePhoto.value)));
    }
    if NonEmptyFile(form.resume) && TruthyId(u.seekerId) {
      db.t := db.t.(accounts := UpdateWhere(db.t.accounts, AccountIdIs(id), SetResume(form.resume.value)));
    }
    if fault {
      db.t := saved;
      return Fail(500, UpdateFailed);
    }
    resp := Success(200, Updated);
  }
}
