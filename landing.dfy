/** Where a signed-in page sends its visitor after asking /api/auth/me who they are. */
module Landing {
  import opened Wrappers
  import opened Http
  import opened MeRoute

  datatype Route = ToLogin | Redirect(path: string) | Show

  /** No stored token, or a failed /api/auth/me, leads to /Login; a user the page is not for is
      sent to `elsewhere`; anyone else sees the page. */
  function Guard(token: Option<string>, me: Response<Me>, forPage: Me -> bool, elsewhere: string): (r: Route)
    ensures r == Show <==> token.Some? && me.Success? && forPage(me.body)
    ensures r == ToLogin <==> token.None? || me.Fail?
    ensures r.Redirect? ==> r.path == elsewhere
  {
    if token.None? then ToLogin
    else if me.Fail? then ToLogin
    else if !forPage(me.body) then Redirect(elsewhere)
    else Show
  }
}
