/** The User schema: its documents, the validators Mongoose runs on them,
    the unique indexes on `email` and `phone`, the pre-save hook that slugs the
    name and hashes the password, and `matchPwd`. */
module UserModel {
  import opened Base
  import opened Text

  const MaxNameLength := 50
  const MaxPhoneLength := 20
  const DefaultRole := "user"

  /** A stored user. `reviews` is the back-reference list that the review
      handlers expect on a user. The schema does not declare it, so the handlers
      as written can neither read nor write it and it stays empty; only the
      corrected handlers, written for a schema that declares it, fill it. */
  datatype User = User(
    id: Id,
    name: string,
    slug: string,
    phone: Option<string>,
    email: string,
    role: string,
    password: string,
    resetPasswordToken: Option<string>,
    resetPasswordExpire: Option<int>,
    createdAt: int,
    reviews: seq<Id>)

  /** The fields register and createUser take from the request body. */
  datatype UserFields = UserFields(
    name: Option<string>,
    email: Option<string>,
    phone: Option<string>,
    password: Option<string>,
    role: Option<string>)

  /** The schema paths an update body may set: update and updateMe pass the
      whole body on, so besides the profile fields it can set the slug, both
      reset fields and the creation time (strict mode drops only keys that are
      not schema paths). */
  datatype UserPatch = UserPatch(
    name: Option<string>,
    email: Option<string>,
    phone: Option<string>,
    password: Option<string>,
    role: Option<string>,
    slug: Option<string>,
    resetPasswordToken: Option<string>,
    resetPasswordExpire: Option<int>,
    createdAt: Option<int>)

  /** The role enum: only "user" and "admin"; no other role exists. */
  predicate RoleValid(role: string)
  {
    role == "user" || role == "admin"
  }

  /** A stored `name` is non-empty and at most 50 characters. */
  predicate StoredNameValid(name: string)
  {
    0 < |name| <= MaxNameLength
  }

  /** A given `name` passes once the `trim` setter has trimmed it. */
  predicate NameValid(name: string)
  {
    StoredNameValid(Trim(name))
  }

  /** `phone` is at most 20 characters; it is not trimmed. */
  predicate PhoneValid(phone: string)
  {
    |phone| <= MaxPhoneLength
  }

  /** `password` is only required: the `minlenght` key is not a validator. */
  predicate PasswordValid(password: string)
  {
    password != []
  }

  /** A non-empty run of non-space characters. */
  ghost predicate NonSpaceRun(t: string)
  {
    t != [] && forall k | 0 <= k < |t| :: !IsSpace(t[k])
  }

  /** The regular expression /\S+@\S+\.\S+/ matches s[a..e]. */
  ghost predicate RegexMatchAt(s: string, a: int, i: int, j: int, e: int)
  {
    && 0 <= a < i < j < e <= |s|
    && NonSpaceRun(s[a..i]) && s[i] == '@'
    && NonSpaceRun(s[i + 1..j]) && s[j] == '.'
    && NonSpaceRun(s[j + 1..e])
  }

  /** The pattern is unanchored: a match anywhere in the string will do. */
  ghost predicate RegexMatches(s: string)
  {
    exists a, i, j, e :: RegexMatchAt(s, a, i, j, e)
  }

  /** The email check as Mongoose runs it: some '@' preceded by a non-space,
      followed by one or more non-spaces, then '.', then a non-space. */
  predicate EmailValid(email: string)
  {
    exists i, j | 0 < i && i + 1 < j && j + 1 < |email| ::
      EmailShapeAt(email, i, j)
  }

  predicate EmailShapeAt(s: string, i: int, j: int)
    requires 0 < i && i + 1 < j && j + 1 < |s|
  {
    && s[i] == '@' && s[j] == '.'
    && !IsSpace(s[i - 1]) && !IsSpace(s[j + 1])
    && (forall k | i < k < j :: !IsSpace(s[k]))
  }

  /** The scan above accepts exactly the strings the regular expression matches. */
  lemma EmailValidIffRegex(s: string)
    ensures EmailValid(s) <==> RegexMatches(s)
  {
    if EmailValid(s) {
      var i, j :| 0 < i && i + 1 < j && j + 1 < |s| && EmailShapeAt(s, i, j);
      assert s[i - 1..i] == [s[i - 1]];
      assert s[j + 1..j + 2] == [s[j + 1]];
      var mid := s[i + 1..j];
      assert forall k | 0 <= k < |mid| :: mid[k] == s[i + 1 + k];
      assert RegexMatchAt(s, i - 1, i, j, j + 2);
    }
    if RegexMatches(s) {
      var a, i, j, e :| RegexMatchAt(s, a, i, j, e);
      assert s[i - 1] == s[a..i][i - 1 - a];
      assert s[j + 1] == s[j + 1..e][0];
      assert forall k | i < k < j :: s[k] == s[i + 1..j][k - i - 1];
      assert EmailShapeAt(s, i, j);
    }
  }

  /** What every stored user satisfies: the validators, on the stored values
      (the name is stored trimmed, so the validator sees it as it is). */
  predicate StoredUserValid(u: User)
  {
    && StoredNameValid(u.name)
    && (u.phone.Some? ==> PhoneValid(u.phone.value))
    && EmailValid(u.email)
    && RoleValid(u.role)
  }

  /** The validators that a new document must pass. */
  predicate CreateFieldsValid(f: UserFields)
  {
    && f.name.Some? && NameValid(f.name.value)
    && f.email.Some? && EmailValid(f.email.value)
    && (f.phone.Some? ==> PhoneValid(f.phone.value))
    && f.password.Some? && PasswordValid(f.password.value)
    && (f.role.Some? ==> RoleValid(f.role.value))
  }

  /** User.create on a request body: validation, then the pre-save hook.
      An absent role becomes "user"; the plaintext password is stored only as its hash. */
  function NewUser(id: Id, f: UserFields, now: int, env: Services): (r: Option<User>)
    ensures r.Some? <==> CreateFieldsValid(f)
    ensures r.Some? ==> && StoredUserValid(r.value) && r.value.id == id
                        && r.value.email == f.email.value && r.value.phone == f.phone
                        && r.value.name == Trim(f.name.value)
                        && r.value.role == (if f.role.None? then DefaultRole else f.role.value)
                        && r.value.password == env.hash(f.password.value)
                        && r.value.resetPasswordToken.None? && r.value.resetPasswordExpire.None?
                        && r.value.reviews == [] && r.value.createdAt == now
                        && r.value.slug == env.slugify(r.value.name)
  {
    if !CreateFieldsValid(f) then None
    else
      var name := Trim(f.name.value);
      var role := if f.role.None? then DefaultRole else f.role.value;
      Some(PreSave(User(id, name, "", f.phone, f.email.value, role, f.password.value,
                        None, None, now, []), env))
  }

  /** A role outside the enum, such as "seller", makes the create fail. */
  lemma UnknownRoleRefused(id: Id, f: UserFields, now: int, env: Services)
    requires f.role.Some? && f.role.value != "user" && f.role.value != "admin"
    ensures NewUser(id, f, now, env).None?
  {
  }

  /** Any non-empty password is accepted, however short. */
  lemma ShortPasswordAccepted(id: Id, f: UserFields, now: int, env: Services, c: char)
    requires CreateFieldsValid(f.(password := Some("x")))
    ensures NewUser(id, f.(password := Some([c])), now, env).Some?
  {
  }

  /** The pre-save hook: the slug is recomputed from the name and the password
      field is replaced by its hash, whatever it held, on every save;
      nothing else changes. */
  function PreSave(u: User, env: Services): (r: User)
    ensures r.password == env.hash(u.password) && r.slug == env.slugify(u.name)
    ensures r.(slug := u.slug, password := u.password) == u
  {
    u.(slug := env.slugify(u.name), password := env.hash(u.password))
  }

  /** Saving twice hashes twice: after two saves the stored password is
      the hash of the hash, not the hash of the plaintext. */
  lemma SaveTwiceHashesTwice(u: User, env: Services)
    ensures PreSave(PreSave(u, env), env).password == env.hash(env.hash(u.password))
    ensures PreSave(PreSave(u, env), env).(password := u.password, slug := u.slug) == u
  {
  }

  /** matchPwd: bcrypt.compare of the entered password with the stored hash;
      bcrypt refuses a missing entered password. */
  function MatchPwd(u: User, entered: Option<string>, env: Services): (r: Result<bool>)
    ensures entered.None? <==> r == Err(Thrown(IllegalArguments))
    ensures entered.Some? ==> r == Ok(env.compare(entered.value, u.password))
  {
    if entered.None? then Err(Thrown(IllegalArguments)) else Ok(env.compare(entered.value, u.password))
  }

  /** The validators an update runs: only on the fields it sets. */
  predicate PatchFieldsValid(f: UserPatch)
  {
    && (f.name.Some? ==> NameValid(f.name.value))
    && (f.email.Some? ==> EmailValid(f.email.value))
    && (f.phone.Some? ==> PhoneValid(f.phone.value))
    && (f.password.Some? ==> PasswordValid(f.password.value))
    && (f.role.Some? ==> RoleValid(f.role.value))
  }

  /** findByIdAndUpdate with runValidators: the set fields are validated and
      written; no pre-save hook runs, so a password set here is stored as given
      and a slug is stored only when the body sets one. A stored user stays valid. */
  function ApplyUserPatch(u: User, f: UserPatch): (r: Option<User>)
    ensures r.Some? <==> PatchFieldsValid(f)
    ensures r.Some? ==> && r.value.id == u.id && r.value.reviews == u.reviews
                        && r.value.name == (if f.name.Some? then Trim(f.name.value) else u.name)
                        && r.value.email == (if f.email.Some? then f.email.value else u.email)
                        && r.value.phone == (if f.phone.Some? then f.phone else u.phone)
                        && r.value.password == (if f.password.Some? then f.password.value else u.password)
                        && r.value.role == (if f.role.Some? then f.role.value else u.role)
                        && r.value.slug == (if f.slug.Some? then f.slug.value else u.slug)
                        && r.value.resetPasswordToken ==
                             (if f.resetPasswordToken.Some? then f.resetPasswordToken else u.resetPasswordToken)
                        && r.value.resetPasswordExpire ==
                             (if f.resetPasswordExpire.Some? then f.resetPasswordExpire else u.resetPasswordExpire)
                        && r.value.createdAt == (if f.createdAt.Some? then f.createdAt.value else u.createdAt)
    ensures r.Some? && StoredUserValid(u) ==> StoredUserValid(r.value)
  {
    if !PatchFieldsValid(f) then None
    else
      Some(u.(name := if f.name.Some? then Trim(f.name.value) else u.name,
              email := if f.email.Some? then f.email.value else u.email,
              phone := if f.phone.Some? then f.phone else u.phone,
              password := if f.password.Some? then f.password.value else u.password,
              role := if f.role.Some? then f.role.value else u.role,
              slug := if f.slug.Some? then f.slug.value else u.slug,
              resetPasswordToken := if f.resetPasswordToken.Some? then f.resetPasswordToken else u.resetPasswordToken,
              resetPasswordExpire := if f.resetPasswordExpire.Some? then f.resetPasswordExpire else u.resetPasswordExpire,
              createdAt := if f.createdAt.Some? then f.createdAt.value else u.createdAt))
  }

  /** Two users that a unique index cannot hold together. A missing phone is
      indexed as null, so two users without a phone collide as well. */
  predicate Collide(a: User, b: User)
  {
    a.email == b.email || a.phone == b.phone
  }

  /** Would writing `u` break the unique index against another stored user? */
  predicate ConflictsWith(users: map<Id, User>, u: User)
  {
    exists id | id in users :: id != u.id && Collide(users[id], u)
  }

  /** The users collection as the store holds it: keyed by id, every id below
      the next fresh id, every document valid, email and phone unique. */
  ghost predicate UsersValid(users: map<Id, User>, next: Id)
  {
    && (forall id | id in users ::
          && users[id].id == id && id < next && StoredUserValid(users[id])
          && (forall x | x in users[id].reviews :: x < next))
    && (forall a, b | a in users && b in users && a != b :: !Collide(users[a], users[b]))
  }

  /** Some stored user holds this email: what `User.findOne({ email })` finds. */
  predicate EmailTaken(users: map<Id, User>, email: string)
  {
    exists id | id in users :: users[id].email == email
  }

  /** The email index: at most one user holds any given email. */
  lemma EmailsUnique(users: map<Id, User>, next: Id, a: Id, b: Id)
    requires UsersValid(users, next)
    requires a in users && b in users && users[a].email == users[b].email
    ensures a == b
  {
  }

  /** The phone index: at most one user holds any given phone, and at most
      one user has none. */
  lemma PhonesUnique(users: map<Id, User>, next: Id, a: Id, b: Id)
    requires UsersValid(users, next)
    requires a in users && b in users && users[a].phone == users[b].phone
    ensures a == b
  {
  }

  /** Handing out more ids keeps the collection valid. */
  lemma UsersValidLater(users: map<Id, User>, next: Id, later: Id)
    requires UsersValid(users, next) && next <= later
    ensures UsersValid(users, later)
  {
  }

  /** Replacing a stored user's review list by one holding only handed-out ids
      keeps the collection valid: the list takes no part in the indexes. */
  lemma ReviewListKeepsValid(users: map<Id, User>, next: Id, id: Id, list: seq<Id>)
    requires UsersValid(users, next) && id in users
    requires forall x | x in list :: x < next
    ensures UsersValid(users[id := users[id].(reviews := list)], next)
  {
    var m := users[id := users[id].(reviews := list)];
    forall a, b | a in m && b in m && a != b
      ensures !Collide(m[a], m[b])
    {
      assert !Collide(users[a], users[b]);
    }
  }

  /** Rewriting a stored user without touching the indexed fields keeps the
      collection valid. */
  lemma RewriteKeepsValid(users: map<Id, User>, next: Id, u: User)
    requires UsersValid(users, next) && u.id in users
    requires users[u.id].email == u.email && users[u.id].phone == u.phone
    requires StoredUserValid(u) && (forall x | x in u.reviews :: x < next)
    ensures UsersValid(users[u.id := u], next)
  {
    var m := users[u.id := u];
    forall a, b | a in m && b in m && a != b
      ensures !Collide(m[a], m[b])
    {
      assert !Collide(users[a], users[b]);
    }
  }

  /** Deleting a user keeps the collection valid. */
  lemma RemoveKeepsValid(users: map<Id, User>, next: Id, id: Id)
    requires UsersValid(users, next)
    ensures UsersValid(users - {id}, next)
  {
  }

  /** Writing a valid user that clashes with nobody keeps the collection valid. */
  lemma WriteKeepsValid(users: map<Id, User>, next: Id, u: User)
    requires UsersValid(users, next)
    requires StoredUserValid(u) && u.id < next && (forall x | x in u.reviews :: x < next)
    requires !ConflictsWith(users, u)
    ensures UsersValid(users[u.id := u], next)
  {
    var m := users[u.id := u];
    forall a, b | a in m && b in m && a != b
      ensures !Collide(m[a], m[b])
    {
      if a == u.id {
        assert !Collide(users[b], u);
      } else if b == u.id {
        assert !Collide(users[a], u);
      }
    }
  }
}
