/** The two gates in front of every route: `authenticateToken` and `requireAdmin`
    (server-sqlite-complete.js:158-181, server.js:55-78). Token verification is a
    parameter: `verify` maps a token to the caller it was signed for, or to None when it
    does not verify (bad signature, expired). */
module Access {
  import opened Text
  import opened Schema

  /** What a gate decides: let the request through for a caller, or answer with a status
      code and a message. */
  datatype Gate = Pass(caller: Caller) | Deny(code: nat, message: string)

  /** `authHeader && authHeader.split(' ')[1]`: the second space-separated part of the
      Authorization header, when there is one and it is not empty. */
  function BearerToken(header: Option<string>): (t: Option<string>)
    ensures t.Some? ==> header.Some? && t.value != "" && ' ' !in t.value
    ensures t.Some? <==> header.Some? && |Split(header.value, ' ')| >= 2 && Split(header.value, ' ')[1] != ""
  {
    if header.None? then None
    else
      var parts := Split(header.value, ' ');
      if |parts| >= 2 && parts[1] != "" then Some(parts[1]) else None
  }

  /** `authenticateToken`: no token is 401, a token that does not verify is 403. */
  function Authenticate(header: Option<string>, verify: string -> Option<Caller>): (g: Gate)
    ensures BearerToken(header).None? ==> g == Deny(401, "Access token required")
    ensures BearerToken(header).Some? && verify(BearerToken(header).value).None? ==>
              g == Deny(403, "Invalid or expired token")
    ensures g.Pass? <==> BearerToken(header).Some? && verify(BearerToken(header).value).Some?
    ensures g.Pass? ==> verify(BearerToken(header).value) == Some(g.caller)
  {
    match BearerToken(header)
    case None => Deny(401, "Access token required")
    case Some(token) =>
      match verify(token)
      case None => Deny(403, "Invalid or expired token")
      case Some(c) => Pass(c)
  }

  /** `requireAdmin`: any role other than exactly 'admin' is 403. */
  function RequireAdmin(c: Caller): (g: Gate)
    ensures g.Pass? <==> IsAdmin(c)
    ensures g.Pass? ==> g.caller == c
    ensures g.Deny? ==> g == Deny(403, "Admin access required")
  {
    if c.role != "admin" then Deny(403, "Admin access required") else Pass(c)
  }

  /** `authenticateToken, requireAdmin`: the chain in front of the admin-only routes. */
  function AdminGate(header: Option<string>, verify: string -> Option<Caller>): (g: Gate)
    ensures g.Pass? <==> Authenticate(header, verify).Pass? && IsAdmin(Authenticate(header, verify).caller)
    ensures g.Pass? ==> g == Authenticate(header, verify)
    ensures Authenticate(header, verify).Deny? ==> g == Authenticate(header, verify)
  {
    match Authenticate(header, verify)
    case Deny(code, message) => Deny(code, message)
    case Pass(c) => RequireAdmin(c)
  }

  /** `Bearer <token>` yields the token, whatever the scheme word is, and whatever follows
      a further space. */
  lemma BearerHeaderYieldsToken(scheme: string, token: string, rest: string)
    requires ' ' !in scheme && ' ' !in token && token != ""
    ensures BearerToken(Some(scheme + " " + token)) == Some(token)
    ensures BearerToken(Some(scheme + " " + token + " " + rest)) == Some(token)
  {
    assert scheme + " " + token == scheme + [' '] + token;
    SplitAfterField(scheme, ' ', token);
    SplitNoSeparator(token, ' ');
    assert scheme + " " + token + " " + rest == scheme + [' '] + (token + [' '] + rest);
    SplitAfterField(scheme, ' ', token + [' '] + rest);
    SplitAfterField(token, ' ', rest);
  }

  /** A header with no space, such as a bare token, has no second part: 401. */
  lemma HeaderWithoutSpaceIsRejected(h: string, verify: string -> Option<Caller>)
    requires ' ' !in h
    ensures Authenticate(Some(h), verify) == Deny(401, "Access token required")
  {
    SplitNoSeparator(h, ' ');
  }

  /** `Bearer ` with nothing after the space gives an empty token, which is falsy: 401. */
  lemma EmptyTokenIsRejected(scheme: string, verify: string -> Option<Caller>)
    requires ' ' !in scheme
    ensures Authenticate(Some(scheme + " "), verify) == Deny(401, "Access token required")
  {
    assert scheme + " " == scheme + [' '] + "";
    SplitAfterField(scheme, ' ', "");
    SplitNoSeparator("", ' ');
  }
}
