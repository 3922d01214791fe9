/** POST /api/auth/resend-code: draws a fresh six-digit code for an unverified account and
    returns it in the body. Nothing is stored and no email is sent. */
module ResendCodeRoute {
  import opened Wrappers
  import opened Text
  import opened Http
  import opened Schema
  import RegisterRoute
  import VerifyRoute

  datatype CodeSent = CodeSent(message: string, code: string)

  /** `rand` is `floor(Math.random() * 900000)`. The route reads the tables and writes nothing. */
  function ResendCode(t: Tables, email: Option<string>, rand: int): (r: Response<CodeSent>)
    requires 0 <= rand < 900000
    ensures !Truthy(email) ==> r == Fail(400, "Email is required")
    ensures r.Success? <==> (
      Truthy(email) && AccountByEmail(t, email.value).Some? && !AccountByEmail(t, email.value).value.verified)
    ensures r.Success? ==> r.status == 200 && IsSixDigits(r.body.code)
    ensures Truthy(email) && AccountByEmail(t, email.value).None? ==> r == Fail(404, "User not found")
    ensures (Truthy(email) && AccountByEmail(t, email.value).Some? && AccountByEmail(t, email.value).value.verified)
              ==> r == Fail(400, "Account already verified")
  {
    if !Truthy(email) then Fail(400, "Email is required")
    else match AccountByEmail(t, email.value)
      case None => Fail(404, "User not found")
      case Some(a) =>
        if a.verified then Fail(400, "Account already verified")
        else Success(200, CodeSent("Verification code sent successfully",
                                   RegisterRoute.GenerateVerificationCode(rand)))
  }

  /** The code handed out is accepted by the verify route for the same email, which then
      verifies that account. */
  lemma ResendThenVerify(t: Tables, email: Option<string>, rand: int)
    requires 0 <= rand < 900000
    requires ResendCode(t, email, rand).Success?
    ensures var (resp, _) := VerifyRoute.Verify(t, email, Some(ResendCode(t, email, rand).body.code));
            resp.Success? && resp.body.user.id == AccountByEmail(t, email.value).value.id
  {
  }

  /** Whenever resending is refused, verifying with any code is refused with the same answer. */
  lemma ResendAndVerifyRefuseAlike(t: Tables, email: Option<string>, rand: int, code: string)
    requires 0 <= rand < 900000
    requires Truthy(email) && IsSixDigits(code)
    requires ResendCode(t, email, rand).Fail?
    ensures var v := VerifyRoute.Verify(t, email, Some(code)).0;
            var r := ResendCode(t, email, rand);
            v.Fail? && v.status == r.status && v.error == r.error
  {
  }
}
