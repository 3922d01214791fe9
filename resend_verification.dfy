/** POST /api/auth/resend-verification: the same checks as resend-code, for the email of a
    valid session token when there is one, else for the email in the body. */
module ResendVerificationRoute {
  import opened Wrappers
  import opened Text
  import opened Http
  import opened Schema
  import opened Auth
  import ResendCodeRoute

  /** The email the route looks up: a token that verifies supplies its `email` claim (even an
      absent one); a missing, malformed or rejected token leaves the body's email. */
  function Recipient(header: Option<string>, verify: Verifier, email: Option<string>): (r: Option<string>)
    ensures Authenticate(header, verify).Caller? ==> r == Authenticate(header, verify).payload.email
    ensures !Authenticate(header, verify).Caller? ==> r == email
  {
    match Authenticate(header, verify)
    case Caller(p) => p.email
    case _ => email
  }

  const SentMessage := "Verification email sent successfully"

  function ResendVerification(t: Tables, header: Option<string>, verify: Verifier, email: Option<string>)
    : (r: Response<string>)
    ensures r.Success? ==> r.status == 200 && r.body == SentMessage
  {
    var to := Recipient(header, verify, email);
    if !Truthy(to) then Fail(400, "Email is required")
    else match AccountByEmail(t, to.value)
      case None => Fail(404, "User not found")
      case Some(a) =>
        if a.verified then Fail(400, "Account already verified")
        else Success(200, SentMessage)
  }

  /** For the email it settles on, the route answers exactly as resend-code does for that email,
      except that the code stays out of the body. */
  lemma AgreesWithResendCode(t: Tables, header: Option<string>, verify: Verifier, email: Option<string>,
                             rand: int)
    requires 0 <= rand < 900000
    ensures var r := ResendVerification(t, header, verify, email);
            var c := ResendCodeRoute.ResendCode(t, Recipient(header, verify, email), rand);
            && r.status == c.status && r.Success? == c.Success?
            && (r.Fail? ==> r.error == c.error)
  {
  }

  /** A verified token wins over the body: with one, the body's email is never consulted. */
  lemma TokenOverridesBody(t: Tables, h: string, verify: Verifier, e1: Option<string>, e2: Option<string>)
    requires StartsWith(h, BearerPrefix) && BearerToken(Some(h)).value in verify
    ensures ResendVerification(t, Some(h), verify, e1) == ResendVerification(t, Some(h), verify, e2)
  {
  }
}
