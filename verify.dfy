/** POST /api/auth/verify: marks the account of an email as verified and answers with the claims
    of a session token. Any six-digit code is accepted; the stored code is never read. */
module VerifyRoute {
  import opened Wrappers
  import opened Text
  import opened Lists
  import opened Http
  import opened Schema
  import opened Auth

  datatype VerifiedUser = VerifiedUser(id: int, email: string, username: string, isVerified: bool)

  /** The success body; `claims` is what gets signed into the seven-day token. */
  datatype Verified = Verified(message: string, claims: Payload, user: VerifiedUser)

  /** `SET account_is_verified = true`. */
  function SetVerified(a: Account): Account {
    a.(verified := true)
  }

  const RequiredMessage := "Email and verification code are required"
  const FormatMessage := "Invalid verification code format"
  const NotFoundMessage := "User not found"
  const AlreadyMessage := "Account already verified"

  function Verify(t: Tables, email: Option<string>, code: Option<string>): (out: (Response<Verified>, Tables))
    ensures out.0.Fail? ==> out.1 == t
    ensures !Truthy(email) || !Truthy(code) ==> out.0 == Fail(400, RequiredMessage)
    ensures Truthy(email) && Truthy(code) && !IsSixDigits(code.value) ==> out.0 == Fail(400, FormatMessage)
    ensures (Truthy(email) && Truthy(code) && IsSixDigits(code.value) && AccountByEmail(t, email.value).None?)
              ==> out.0 == Fail(404, NotFoundMessage)
    ensures (Truthy(email) && Truthy(code) && IsSixDigits(code.value)
             && AccountByEmail(t, email.value).Some? && AccountByEmail(t, email.value).value.verified)
              ==> out.0 == Fail(400, AlreadyMessage)
    ensures out.0.Success? <==> (
      && Truthy(email) && Truthy(code) && IsSixDigits(code.value)
      && AccountByEmail(t, email.value).Some? && !AccountByEmail(t, email.value).value.verified)
    ensures out.0.Success? ==>
      var a := AccountByEmail(t, email.value).value;
      && out.0.status == 200
      && out.0.body.claims == Payload(a.id, Some(email.value), a.username)
      && out.0.body.user == VerifiedUser(a.id, email.value, a.username, true)
  {
    if !Truthy(email) || !Truthy(code) then (Fail(400, RequiredMessage), t)
    else if !IsSixDigits(code.value) then (Fail(400, FormatMessage), t)
    else match AccountByEmail(t, email.value)
      case None => (Fail(404, NotFoundMessage), t)
      case Some(a) =>
        if a.verified then (Fail(400, AlreadyMessage), t)
        else
          (Success(200, Verified("Email verified successfully", Payload(a.id, Some(a.email), a.username),
                                 VerifiedUser(a.id, a.email, a.username, true))),
           t.(accounts := UpdateWhere(t.accounts, AccountIdIs(a.id), SetVerified)))
  }

  /** A successful verification flips exactly the found account's flag and touches nothing else. */
  lemma VerifyMarksOnlyThatAccount(t: Tables, email: Option<string>, code: Option<string>)
    requires Verify(t, email, code).0.Success?
    ensures var (resp, t') := Verify(t, email, code);
      && t'.(accounts := t.accounts) == t
      && |t'.accounts| == |t.accounts|
      && (forall k :: 0 <= k < |t.accounts| && t.accounts[k].id != resp.body.user.id ==> t'.accounts[k] == t.accounts[k])
      && (forall k :: 0 <= k < |t.accounts| && t.accounts[k].id == resp.body.user.id ==>
            t'.accounts[k] == t.accounts[k].(verified := true))
      && AccountByEmail(t', email.value).Some? && AccountByEmail(t', email.value).value.verified
  {
    var a := AccountByEmail(t, email.value).value;
    FindAfterUpdate(t.accounts, AccountIdIs(a.id), SetVerified, AccountEmailIs(email.value));
  }

  /** Verification cannot be repeated: once it succeeded, every later attempt for the same email
      answers 400 "Account already verified", whatever the code. */
  lemma VerifyOnce(t: Tables, email: Option<string>, code: Option<string>, again: Option<string>)
    requires Verify(t, email, code).0.Success?
    requires Truthy(again) && IsSixDigits(again.value)
    ensures Verify(Verify(t, email, code).1, email, again) == (Fail(400, AlreadyMessage), Verify(t, email, code).1)
  {
    VerifyMarksOnlyThatAccount(t, email, code);
  }

  /** The stored verification codes play no part: any two six-digit codes give the same outcome,
      whatever Verification_codes holds. */
  lemma VerifyIgnoresStoredCodes(t: Tables, email: Option<string>, c1: string, c2: string,
                                 codes: seq<VerificationCode>)
    requires IsSixDigits(c1) && IsSixDigits(c2)
    ensures Verify(t, email, Some(c1)) == Verify(t, email, Some(c2))
    ensures Verify(t.(codes := codes), email, Some(c1)).0 == Verify(t, email, Some(c1)).0
  {
  }

  method Post(db: Database, email: Option<string>, code: Option<string>) returns (resp: Response<Verified>)
    modifies db
    ensures (resp, db.t) == Verify(old(db.t), email, code)
  {
    if !Truthy(email) || !Truthy(code) {
      return Fail(400, RequiredMessage);
    }
    if !IsSixDigits(code.value) {
      return Fail(400, FormatMessage);
    }
    var user := AccountByEmail(db.t, email.value);
    if user.None? {
      return Fail(404, NotFoundMessage);
    }
    var a := user.value;
    if a.verified {
      return Fail(400, AlreadyMessage);
    }
    db.t := db.t.(accounts := UpdateWhere(db.t.accounts, AccountIdIs(a.id), SetVerified));
    resp := Success(200, Verified("Email verified successfully", Payload(a.id, Some(a.email), a.username),
                                  VerifiedUser(a.id, a.email, a.username, true)));
  }
}
