/** The authentication middleware: `protect` finds the session token in the
    Authorization header or in the `token` cookie, verifies it and attaches the
    principal; `authorize` checks the principal's role against an allow-list. */
module Middleware {
  import opened Base
  import opened Text
  import opened UserModel

  const NotAuthorized := "You are not authorized to access this route"
  const BearerPrefix := "Bearer"

  /** The allow-list the review routes pass to `authorize`. */
  const ReviewRoles := ["user", "admin"]

  /** What `protect` reads of a request: the Authorization header value and the
      `token` cookie. */
  datatype Request = Request(authorization: Option<string>, cookieToken: Option<string>)

  /** The outcome of `protect`: refused, or passed on with the principal that
      was looked up (null when the lookup found nothing). */
  datatype Guarded = Denied(failure: Failure) | Passed(principal: Option<User>)

  /** The header branch is taken when the header is present, non-empty, and
      starts with "Bearer" (case-sensitive, no space required). */
  predicate BearerHeader(req: Request)
  {
    Truthy(req.authorization) && StartsWith(req.authorization.value, BearerPrefix)
  }

  /** The `token` local of `protect`: element 1 of the header split on " " when
      the header branch is taken, otherwise the cookie when it is non-empty.
      The cookie is never consulted when the header branch is taken. */
  function ExtractToken(req: Request): (t: Option<string>)
    ensures BearerHeader(req) ==> (t.Some? <==> ' ' in req.authorization.value)
    ensures BearerHeader(req) && t.Some? ==> ' ' !in t.value
    ensures !BearerHeader(req) ==> t == (if Truthy(req.cookieToken) then req.cookieToken else None)
  {
    if BearerHeader(req) then
      SplitHasSecondPart(req.authorization.value, ' ');
      SplitElement(req.authorization.value, ' ', 1)
    else if Truthy(req.cookieToken) then req.cookieToken
    else None
  }

  /** A string splits into two or more parts exactly when it holds the separator. */
  lemma SplitHasSecondPart(s: string, sep: char)
    ensures |Split(s, sep)| >= 2 <==> sep in s
  {
    var parts := Split(s, sep);
    if |parts| == 1 {
      assert Join(parts, sep) == parts[0];
    } else {
      assert s == parts[0] + [sep] + Join(parts[1..], sep);
      assert s[|parts[0]|] == sep;
    }
  }

  /** "Bearer <t>" yields <t> when <t> has no space, whatever the cookie holds. */
  lemma BearerTokenTaken(t: string, cookie: Option<string>)
    requires ' ' !in t
    ensures ExtractToken(Request(Some(BearerPrefix + " " + t), cookie)) == Some(t)
  {
    var h := BearerPrefix + " " + t;
    assert h[..|BearerPrefix|] == BearerPrefix;
    assert ' ' !in BearerPrefix;
    SplitJoin([BearerPrefix, t], ' ');
    assert Join([BearerPrefix, t], ' ') == h;
  }

  /** Only the text up to the next space is taken: "Bearer <t> <more>" yields <t>. */
  lemma BearerTokenStopsAtSpace(t: string, more: string, cookie: Option<string>)
    requires ' ' !in t
    ensures ExtractToken(Request(Some(BearerPrefix + " " + t + " " + more), cookie)) == Some(t)
  {
    var h := BearerPrefix + " " + t + " " + more;
    assert h[..|BearerPrefix|] == BearerPrefix;
    assert ' ' !in BearerPrefix;
    assert h == BearerPrefix + [' '] + (t + [' '] + more);
    SplitAfterPart(BearerPrefix, ' ', t + [' '] + more);
    SplitAfterPart(t, ' ', more);
  }

  /** `protect`: no token, or one that fails verification, is refused with 401
      and the same message; a verified token passes, with the user its id names
      attached, or null when no such user exists. */
  function Protect(req: Request, users: map<Id, User>, env: Services): (r: Guarded)
    ensures r.Denied? <==> !Truthy(ExtractToken(req)) || env.verify(ExtractToken(req).value).None?
    ensures r.Denied? ==> r.failure == Reply(401, NotAuthorized)
    ensures r.Passed? ==> var id := env.verify(ExtractToken(req).value).value;
                          r.principal == (if id in users then Some(users[id]) else None)
  {
    var token := ExtractToken(req);
    if !Truthy(token) then Denied(Reply(401, NotAuthorized))
    else
      match env.verify(token.value)
      case None => Denied(Reply(401, NotAuthorized))
      case Some(id) => Passed(if id in users then Some(users[id]) else None)
  }

  /** A "Bearer" header with no space yields no token, so the request is refused
      even when a valid cookie is present. */
  lemma BearerWithoutSpaceRefused(h: string, cookie: Option<string>, users: map<Id, User>, env: Services)
    requires StartsWith(h, BearerPrefix) && ' ' !in h
    ensures ExtractToken(Request(Some(h), cookie)) == None
    ensures Protect(Request(Some(h), cookie), users, env) == Denied(Reply(401, NotAuthorized))
  {
    assert h != [] by { assert |h| >= |BearerPrefix|; }
  }

  /** `authorize(...roles)`: passes exactly when the principal's role is in the
      allow-list, else 403; with no principal attached, reading its role throws. */
  function Authorize(roles: seq<string>, principal: Option<User>): (r: Result<()>)
    ensures principal.None? ==> r == Err(Thrown(TypeError))
    ensures principal.Some? ==> (r.Ok? <==> principal.value.role in roles)
    ensures principal.Some? && r.Err? ==>
              r.failure == Reply(403, "User of role " + principal.value.role + " is not authorized to perform this action")
  {
    if principal.None? then Err(Thrown(TypeError))
    else if principal.value.role in roles then Ok(())
    else Err(Reply(403, "User of role " + principal.value.role + " is not authorized to perform this action"))
  }

  /** Because a stored role is "user" or "admin", every stored user passes the
      review routes' allow-list: their 403 branch is unreachable. */
  lemma StoredUsersPassReviewRoles(u: User)
    requires StoredUserValid(u)
    ensures Authorize(ReviewRoles, Some(u)) == Ok(())
  {
    assert u.role == ReviewRoles[0] || u.role == ReviewRoles[1];
  }
}
