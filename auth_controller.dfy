/** The account handlers: register, login and logout, the admin's user
    management, self-service updates, and the forgot/reset password flow.
    Every successful sign-in answers through `SendTokenResponse`. */
module AuthController {
  import opened Base
  import U = UserModel
  import opened Database

  const DayMillis := 24 * 60 * 60 * 1000
  const LogoutMillis := 10 * 1000
  const InvalidCredentials := "Invalid Credentials"

  /** A `Set-Cookie` as the handlers issue it; `expires` is in milliseconds. */
  datatype Cookie = Cookie(name: string, value: string, expires: int, httpOnly: bool)

  /** The answer of sendTokenResponse: status, the signed token in the body and
      in the `token` cookie, and a greeting. */
  datatype TokenResponse = TokenResponse(status: nat, token: string, cookie: Cookie, message: string)

  /** sendTokenResponse: a token signed over the user's id, set as an httpOnly
      cookie that lives `cookieExpireDays` days; admins get their own greeting. */
  function SendTokenResponse(u: U.User, status: nat, now: int, env: Services): (r: TokenResponse)
    ensures r.status == status && r.token == env.sign(u.id)
    ensures r.cookie == Cookie("token", env.sign(u.id), now + env.cookieExpireDays * 86400000, true)
    ensures u.role == "admin" ==> r.message == "Our Admin The " + u.name + " has arrived "
    ensures u.role != "admin" ==> r.message == u.email + " sucesss full "
  {
    var token := env.sign(u.id);
    var cookie := Cookie("token", token, now + env.cookieExpireDays * DayMillis, true);
    if u.role == "admin" then TokenResponse(status, token, cookie, "Our Admin The " + u.name + " has arrived ")
    else TokenResponse(status, token, cookie, u.email + " sucesss full ")
  }

  /** A session cookie issued at `now` is still alive when a logout issued at the
      same moment expires, as soon as the configured lifetime is one day or more. */
  lemma SessionOutlivesLogout(u: U.User, now: int, env: Services)
    requires env.cookieExpireDays >= 1
    ensures SendTokenResponse(u, 200, now, env).cookie.expires > LogoutCookie(now).expires
  {
  }

  /** logout: the `token` cookie is overwritten by "none", expiring in ten
      seconds; it is not httpOnly. */
  function LogoutCookie(now: int): (c: Cookie)
    ensures c == Cookie("token", "none", now + 10000, false)
  {
    Cookie("token", "none", now + LogoutMillis, false)
  }

  /** register: User.create on the body, then a token response with 201. */
  method Register(db: Database, env: Services, body: U.UserFields, now: int) returns (r: Result<TokenResponse>)
    requires db.Valid()
    modifies db
    ensures db.Valid()
    ensures var made := U.NewUser(old(db.next), body, now, env);
            && (made.None? ==> r == Err(Thrown(ValidationFailed)) && unchanged(db))
            && (made.Some? && U.ConflictsWith(old(db.users), made.value) ==>
                  r == Err(Thrown(DuplicateKey)) && unchanged(db))
            && (made.Some? && !U.ConflictsWith(old(db.users), made.value) ==>
                  && r == Ok(SendTokenResponse(made.value, 201, now, env))
                  && db.users == old(db.users)[old(db.next) := made.value]
                  && db.next == old(db.next) + 1
                  && db.products == old(db.products) && db.reviews == old(db.reviews))
  {
    var created := db.InsertUser(body, now, env);
    if created.Err? {
      return Err(created.failure);
    }
    r := Ok(SendTokenResponse(created.value, 201, now, env));
  }

  /** createUser (admin only): User.create, answered with a message instead of a token. */
  method CreateUser(db: Database, env: Services, body: U.UserFields, now: int) returns (r: Result<string>)
    requires db.Valid()
    modifies db
    ensures db.Valid()
    ensures var made := U.NewUser(old(db.next), body, now, env);
            && (made.None? ==> r == Err(Thrown(ValidationFailed)) && unchanged(db))
            && (made.Some? && U.ConflictsWith(old(db.users), made.value) ==>
                  r == Err(Thrown(DuplicateKey)) && unchanged(db))
            && (made.Some? && !U.ConflictsWith(old(db.users), made.value) ==>
                  && r == Ok(made.value.role + " of name " + made.value.name + " created successfully")
                  && db.users == old(db.users)[old(db.next) := made.value]
                  && db.next == old(db.next) + 1
                  && db.products == old(db.products) && db.reviews == old(db.reviews))
  {
    var created := db.InsertUser(body, now, env);
    if created.Err? {
      return Err(created.failure);
    }
    r := Ok(created.value.role + " of name " + created.value.name + " created successfully");
  }

  /** login: both fields must be non-empty (400) before any lookup; then an
      unknown email and a wrong password are refused alike with 401. Since
      emails are unique, login succeeds exactly when the user holding the
      email has a password that matches. */
  method Login(db: Database, env: Services, email: Option<string>, password: Option<string>, now: int)
    returns (r: Result<TokenResponse>)
    requires db.Valid()
    ensures !Truthy(email) || !Truthy(password) ==> r == Err(Reply(400, "Please enter email or password first"))
    ensures Truthy(email) && Truthy(password) ==>
              (r.Ok? <==> exists id | id in db.users ::
                            db.users[id].email == email.value && env.compare(password.value, db.users[id].password))
    ensures Truthy(email) && Truthy(password) && r.Err? ==> r.failure == Reply(401, InvalidCredentials)
    ensures r.Ok? ==> exists id | id in db.users ::
                        db.users[id].email == email.value && r.value == SendTokenResponse(db.users[id], 200, now, env)
  {
    if !Truthy(email) || !Truthy(password) {
      return Err(Reply(400, "Please enter email or password first"));
    }
    if !exists id | id in db.users :: db.users[id].email == email.value {
      return Err(Reply(401, InvalidCredentials));
    }
    var id :| id in db.users && db.users[id].email == email.value;
    forall other | other in db.users && db.users[other].email == email.value
      ensures other == id
    {
      U.EmailsUnique(db.users, db.next, id, other);
    }
    var user := db.users[id];
    var isMatch := U.MatchPwd(user, password, env);
    if isMatch != Ok(true) {
      return Err(Reply(401, InvalidCredentials));
    }
    r := Ok(SendTokenResponse(user, 200, now, env));
  }

  /** getMe: the signed-in user as stored now, null if it is gone; reading the
      id of a missing principal throws. */
  function GetMe(db: Database, caller: Option<U.User>): (r: Result<Option<U.User>>)
    reads db
    ensures caller.None? <==> r == Err(Thrown(TypeError))
    ensures caller.Some? ==> r.Ok? && (r.value.Some? <==> caller.value.id in db.users)
    ensures r.Ok? && r.value.Some? ==> r.value.value == db.users[caller.value.id]
  {
    if caller.None? then Err(Thrown(TypeError))
    else if caller.value.id in db.users then Ok(Some(db.users[caller.value.id]))
    else Ok(None)
  }

  /** getUser: the user with the id, else 404. */
  function GetUser(db: Database, id: Id): (r: Result<U.User>)
    reads db
    ensures r.Ok? <==> id in db.users
    ensures r.Ok? ==> r.value == db.users[id]
    ensures r.Err? ==> r.failure == Reply(404, "User with " + IdText(id) + " not found")
  {
    if id in db.users then Ok(db.users[id]) else Err(Reply(404, "User with " + IdText(id) + " not found"))
  }

  /** deleteUser: 404 for a missing id; otherwise that user alone is removed.
      Nothing cascades: the user's reviews and products stay. */
  method DeleteUser(db: Database, id: Id) returns (r: Result<string>)
    requires db.Valid()
    modifies db
    ensures db.Valid()
    ensures id !in old(db.users) ==> r == Err(Reply(404, "User with id " + IdText(id) + " not found")) && unchanged(db)
    ensures id in old(db.users) ==>
              && r == Ok(old(db.users)[id].name + " of role " + old(db.users)[id].role + " removed by Admin")
              && db.users == old(db.users) - {id}
              && db.products == old(db.products) && db.reviews == old(db.reviews) && db.next == old(db.next)
  {
    if id !in db.users {
      return Err(Reply(404, "User with id " + IdText(id) + " not found"));
    }
    var user := db.users[id];
    U.RemoveKeepsValid(db.users, db.next, id);
    db.users := db.users - {id};
    r := Ok(user.name + " of role " + user.role + " removed by Admin");
  }

  /** The self-or-admin check of update. */
  predicate MayUpdate(caller: U.User, target: Id)
  {
    caller.role == "admin" || caller.id == target
  }

  /** update: the target must exist (404) before any check of the caller; a
      non-admin may only update their own record (401); then
      findByIdAndUpdate with the whole body. A password set this way is stored
      as given, unhashed. */
  method Update(db: Database, caller: Option<U.User>, target: Id, patch: U.UserPatch) returns (r: Result<U.User>)
    requires db.Valid()
    modifies db
    ensures db.Valid()
    ensures target !in old(db.users) ==>
              r == Err(Reply(404, "User with id " + IdText(target) + " not found")) && unchanged(db)
    ensures target in old(db.users) && caller.None? ==> r == Err(Thrown(TypeError)) && unchanged(db)
    ensures target in old(db.users) && caller.Some? && !MayUpdate(caller.value, target) ==>
              r == Err(Reply(401, caller.value.name + " is not allowed to update another user")) && unchanged(db)
    ensures target in old(db.users) && caller.Some? && MayUpdate(caller.value, target) ==>
              && (!U.PatchFieldsValid(patch) ==> r == Err(Thrown(ValidationFailed)) && unchanged(db))
              && (U.PatchFieldsValid(patch) ==>
                    var patched := U.ApplyUserPatch(old(db.users)[target], patch).value;
                    && (U.ConflictsWith(old(db.users), patched) ==> r == Err(Thrown(DuplicateKey)) && unchanged(db))
                    && (!U.ConflictsWith(old(db.users), patched) ==>
                          && r == Ok(patched) && db.users == old(db.users)[target := patched]
                          && db.products == old(db.products) && db.reviews == old(db.reviews)
                          && db.next == old(db.next)))
  {
    if target !in db.users {
      return Err(Reply(404, "User with id " + IdText(target) + " not found"));
    }
    if caller.None? {
      return Err(Thrown(TypeError));
    }
    if !MayUpdate(caller.value, target) {
      return Err(Reply(401, caller.value.name + " is not allowed to update another user"));
    }
    var updated := db.UpdateUserById(target, patch);
    match updated
    case Err(f) => r := Err(f);
    case Ok(Some(user)) => r := Ok(user);
    case Ok(None) => assert false;
  }

  /** updateMe: findByIdAndUpdate on the caller's own id with the whole body;
      null when the caller's record is gone. */
  method UpdateMe(db: Database, caller: Option<U.User>, patch: U.UserPatch) returns (r: Result<Option<U.User>>)
    requires db.Valid()
    modifies db
    ensures db.Valid()
    ensures caller.None? ==> r == Err(Thrown(TypeError)) && unchanged(db)
    ensures caller.Some? && !U.PatchFieldsValid(patch) ==> r == Err(Thrown(ValidationFailed)) && unchanged(db)
    ensures caller.Some? && U.PatchFieldsValid(patch) && caller.value.id !in old(db.users) ==>
              r == Ok(None) && unchanged(db)
    ensures caller.Some? && U.PatchFieldsValid(patch) && caller.value.id in old(db.users) ==>
              var patched := U.ApplyUserPatch(old(db.users)[caller.value.id], patch).value;
              && (U.ConflictsWith(old(db.users), patched) ==> r == Err(Thrown(DuplicateKey)) && unchanged(db))
              && (!U.ConflictsWith(old(db.users), patched) ==>
                    && r == Ok(Some(patched)) && db.users == old(db.users)[caller.value.id := patched]
                    && db.products == old(db.products) && db.reviews == old(db.reviews)
                    && db.next == old(db.next))
  {
    if caller.None? {
      return Err(Thrown(TypeError));
    }
    r := db.UpdateUserById(caller.value.id, patch);
  }

  /** updateMyPassword: the caller's stored record must exist and `currentpassword`
      must match its hash (401 otherwise, nothing changes); then the new
      password is validated and saved, and the pre-save hook stores its hash. */
  method UpdateMyPassword(db: Database, env: Services, caller: Option<U.User>, current: Option<string>,
                          newPassword: Option<string>, now: int) returns (r: Result<TokenResponse>)
    requires db.Valid()
    modifies db
    ensures db.Valid()
    ensures r.Err? ==> unchanged(db)
    ensures caller.None? ==> r == Err(Thrown(TypeError))
    ensures caller.Some? && caller.value.id !in old(db.users) ==> r == Err(Thrown(TypeError))
    ensures caller.Some? && caller.value.id in old(db.users) ==>
              var user := old(db.users)[caller.value.id];
              && (current.None? ==> r == Err(Thrown(IllegalArguments)))
              && (current.Some? && !env.compare(current.value, user.password) ==>
                    r == Err(Reply(401, "Current password is incorrect")))
              && (current.Some? && env.compare(current.value, user.password) && !Truthy(newPassword) ==>
                    r == Err(Thrown(ValidationFailed)))
              && (current.Some? && env.compare(current.value, user.password) && Truthy(newPassword) ==>
                    var saved := U.PreSave(user.(password := newPassword.value), env);
                    && saved.password == env.hash(newPassword.value)
                    && r == Ok(SendTokenResponse(saved, 200, now, env))
                    && db.users == old(db.users)[caller.value.id := saved]
                    && db.products == old(db.products) && db.reviews == old(db.reviews)
                    && db.next == old(db.next))
  {
    if caller.None? {
      return Err(Thrown(TypeError));
    }
    var id := caller.value.id;
    if id !in db.users {
      return Err(Thrown(TypeError));
    }
    var user := db.users[id];
    var isMatch := U.MatchPwd(user, current, env);
    if isMatch.Err? {
      return Err(isMatch.failure);
    }
    if !isMatch.value {
      return Err(Reply(401, "Current password is incorrect"));
    }
    if !Truthy(newPassword) {
      return Err(Thrown(ValidationFailed));
    }
    var saved := U.PreSave(user.(password := newPassword.value), env);
    db.SaveUser(saved);
    r := Ok(SendTokenResponse(saved, 200, now, env));
  }

  /** The user `resetPassword` looks for: holding the digest of the token, with
      an expiry strictly after now. */
  predicate ResetMatches(u: U.User, digest: string, now: int)
  {
    u.resetPasswordToken == Some(digest) && u.resetPasswordExpire.Some? && u.resetPasswordExpire.value > now
  }

  /** An update body that sets both reset fields plants a token that
      resetPassword accepts exactly until the expiry it gives. */
  lemma UpdatePlantsResetToken(u: U.User, f: U.UserPatch, digest: string, expire: int, now: int)
    requires U.PatchFieldsValid(f)
    requires f.resetPasswordToken == Some(digest) && f.resetPasswordExpire == Some(expire)
    ensures ResetMatches(U.ApplyUserPatch(u, f).value, digest, now) <==> now < expire
  {
  }

  /** forgotPassword: an unknown email is 404. For a known one the handler calls
      `user.getResetPasswordToken()`, a method the User schema does not define,
      so the call throws a TypeError before anything is saved or mailed. */
  method ForgotPassword(db: Database, email: string) returns (r: Result<()>)
    requires db.Valid()
    ensures !U.EmailTaken(db.users, email) <==> r == Err(Reply(404, "User with " + email + " not found"))
    ensures U.EmailTaken(db.users, email) <==> r == Err(Thrown(TypeError))
  {
    if !U.EmailTaken(db.users, email) {
      return Err(Reply(404, "User with " + email + " not found"));
    }
    r := Err(Thrown(TypeError));
  }

  /** The document a successful reset saves: the new password, hashed by the
      hook, and both reset fields cleared, so the token matches no more. */
  function AfterReset(u: U.User, password: string, env: Services): (r: U.User)
    ensures r.password == env.hash(password)
    ensures r.resetPasswordToken.None? && r.resetPasswordExpire.None?
    ensures forall digest: string, now: int {:trigger ResetMatches(r, digest, now)} :: !ResetMatches(r, digest, now)
    ensures r.(password := u.password, slug := u.slug, resetPasswordToken := u.resetPasswordToken,
               resetPasswordExpire := u.resetPasswordExpire) == u
  {
    U.PreSave(u.(password := password, resetPasswordToken := None, resetPasswordExpire := None), env)
  }

  /** Some user holds `digest` as an unexpired reset token. */
  predicate ResetHeld(users: map<Id, U.User>, digest: string, now: int)
  {
    exists id | id in users :: ResetMatches(users[id], digest, now)
  }

  /** The un-awaited save of resetPassword: with a password the user is saved as
      AfterReset; without one the save fails and nothing is stored. */
  method SaveReset(db: Database, env: Services, id: Id, password: Option<string>)
    requires db.Valid() && id in db.users
    modifies db
    ensures db.Valid()
    ensures db.users == (if Truthy(password) then old(db.users)[id := AfterReset(old(db.users)[id], password.value, env)]
                         else old(db.users))
    ensures db.products == old(db.products) && db.reviews == old(db.reviews) && db.next == old(db.next)
  {
    if Truthy(password) {
      db.SaveUser(AfterReset(db.users[id], password.value, env));
    }
  }

  /** resetPassword: no user holds the digest of the token with an unexpired
      expiry (400, nothing changes); otherwise the new password is set, both
      reset fields are cleared, and the document is saved, so the token cannot
      be used twice. The save is not awaited: a missing password makes it
      fail without the handler noticing, leaving the store and the token as
      they were, while the handler still answers 200 (the rejection goes to
      the process-wide handler, which is not modelled). */
  method ResetPassword(db: Database, env: Services, resetToken: string, password: Option<string>, now: int)
    returns (r: Result<TokenResponse>)
    requires db.Valid()
    modifies db
    ensures db.Valid()
    ensures r.Ok? <==> ResetHeld(old(db.users), env.digest(resetToken), now)
    ensures r.Err? ==> r.failure == Reply(400, "Invalid/Expired Token ") && unchanged(db)
    ensures r.Ok? ==>
              exists id | id in old(db.users) && ResetMatches(old(db.users)[id], env.digest(resetToken), now) ::
                && r.value == SendTokenResponse(old(db.users)[id], 200, now, env)
                && db.users == (if Truthy(password) then old(db.users)[id := AfterReset(old(db.users)[id], password.value, env)]
                                else old(db.users))
    ensures db.products == old(db.products) && db.reviews == old(db.reviews) && db.next == old(db.next)
  {
    var digest := env.digest(resetToken);
    if !ResetHeld(db.users, digest, now) {
      return Err(Reply(400, "Invalid/Expired Token "));
    }
    var id :| id in db.users && ResetMatches(db.users[id], digest, now);
    var user := db.users[id];
    SaveReset(db, env, id, password);
    r := Ok(SendTokenResponse(user, 200, now, env));
  }
}
