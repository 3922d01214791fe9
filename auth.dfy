/** The bearer-token handling every protected route repeats: read the `authorization` header,
    require the `Bearer ` prefix, take the second space-separated piece, and verify it. */
module Auth {
  import opened Wrappers
  import opened Text

  /** The claims the verify route signs into a token. */
  datatype Payload = Payload(userId: int, email: Option<string>, username: string)

  /** `jwtVerify(token, JWT_SECRET)` as a partial function: the tokens it accepts (well signed,
      not expired) map to their payload; every other token makes it throw. */
  type Verifier = map<string, Payload>

  const BearerPrefix: string := "Bearer "

  /** The 401 answer of a request without an acceptable `authorization` header. */
  const TokenRequired := "Authorization token required"

  lemma BearerSplit(h: string)
    requires StartsWith(h, BearerPrefix)
    ensures IndexOf(h, ' ') == 6
    ensures |Split(h, ' ')| >= 2 && Split(h, ' ')[1] == TakeUntil(h[7..], ' ')
  {
    assert h[..7] == BearerPrefix;
    assert h[6] == ' ' && forall k :: 0 <= k < 6 ==> h[k] != ' ';
    IndexOfFirst(h, ' ', 6);
    assert Split(h, ' ') == [h[..6]] + Split(h[7..], ' ');
  }

  /** IndexOf finds the first occurrence. */
  lemma {:induction false} IndexOfFirst(s: string, c: char, i: nat)
    requires i < |s| && s[i] == c
    requires forall k :: 0 <= k < i ==> s[k] != c
    ensures IndexOf(s, c) == i
  {
    if i > 0 {
      IndexOfFirst(s[1..], c, i - 1);
    }
  }

  /** `authHeader.startsWith('Bearer ') ? authHeader.split(' ')[1] : (401)`. */
  function BearerToken(header: Option<string>): (r: Option<string>)
    ensures r.Some? <==> header.Some? && StartsWith(header.value, BearerPrefix)
  {
    if header.Some? && StartsWith(header.value, BearerPrefix) then
      BearerSplit(header.value);
      Some(Split(header.value, ' ')[1])
    else None
  }

  /** The token is the word right after `Bearer `: it holds no space, the header begins with
      `Bearer ` followed by it, and what follows it (if anything) is a space. */
  lemma BearerTokenIsSecondWord(h: string)
    requires StartsWith(h, BearerPrefix)
    ensures BearerToken(Some(h)).Some?
    ensures var t := BearerToken(Some(h)).value;
      && ' ' !in t
      && StartsWith(h, BearerPrefix + t)
      && (|h| == 7 + |t| || h[7 + |t|] == ' ')
  {
    BearerSplit(h);
    var t := BearerToken(Some(h)).value;
    var rest := h[7..];
    assert t == rest[..IndexOf(rest, ' ')];
    assert h[..7 + |t|] == BearerPrefix + t by {
      assert h == h[..7] + rest;
    }
  }

  /** What the token check yields: no usable header (401), a token jwtVerify rejects
      (the route's catch block), or the verified payload. */
  datatype Session = NoToken | BadToken | Caller(payload: Payload)

  function Authenticate(header: Option<string>, verify: Verifier): (s: Session)
    ensures s.NoToken? <==> BearerToken(header).None?
    ensures s.BadToken? <==> BearerToken(header).Some? && BearerToken(header).value !in verify
    ensures s.Caller? ==> s.payload == verify[BearerToken(header).value]
  {
    match BearerToken(header)
    case None => NoToken
    case Some(t) => if t in verify then Caller(verify[t]) else BadToken
  }
}
