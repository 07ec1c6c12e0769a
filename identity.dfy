/**
 * The identity service of `app/services/identity.py`: the password policy,
 * username normalisation, sign-in, first-user registration and password
 * change over a table of users. Password hashing is a key-derivation
 * function the service is given (`digest(password, salt)`); the random salt
 * and the outcome of the database commit are inputs of the operations.
 */
module Identity {

  import opened Common
  import opened Text

  datatype ErrorCode =
    | MissingFields
    | TooShort
    | MissingCredentials
    | InvalidCredentials
    | RegistrationDisabled
    | UsernameRequired
    | Mismatch
    | UsernameTaken
    | MissingUser
    | InvalidCurrent
    | Unknown

  // ----- PasswordPolicy -------------------------------------------------

  datatype Validation = Valid | Invalid(code: ErrorCode, message: string)

  datatype PasswordPolicy = PasswordPolicy(minimumLength: int)
  {
    /**
     * `validate(password)`: a missing (non-string) or empty password, then
     * one shorter than the minimum, is refused.
     */
    function Validate(password: Option<string>): (r: Validation)
      ensures r.Valid? <==> password.Some? && password.value != [] && |password.value| >= minimumLength
      ensures r.Invalid? && r.code == MissingFields <==> password.None? || password.value == []
      ensures r.Invalid? && r.code == TooShort <==> password.Some? && password.value != [] && |password.value| < minimumLength
    {
      if password.None? || password.value == [] then Invalid(MissingFields, "Password is required.")
      else if |password.value| < minimumLength then
        Invalid(TooShort, "Password must be at least " + IntToString(minimumLength) + " characters long.")
      else Valid
    }
  }

  /** `PasswordPolicy()`: at least 8 characters. */
  const DefaultPolicy := PasswordPolicy(8)

  // ----- _normalize_username --------------------------------------------

  /** `_normalize_username`: a non-string is "", a string is stripped and lower-cased. */
  function NormalizeUsername(username: Option<string>): string
  {
    if username.None? then "" else Lower(Strip(username.value))
  }

  lemma LowerKeepsSpaces(c: char)
    ensures IsSpace(LowerChar(c)) <==> IsSpace(c)
  {
  }

  /** A normalised name has no surrounding space and no ASCII capital, so normalising it again changes nothing. */
  lemma NormalizeIdempotent(username: Option<string>)
    ensures NormalizeUsername(Some(NormalizeUsername(username))) == NormalizeUsername(username)
  {
    if username.Some? {
      var s := Strip(username.value);
      var n := Lower(s);
      var _, _ := StripShape(username.value);
      if n != [] {
        LowerKeepsSpaces(s[0]);
        LowerKeepsSpaces(s[|s| - 1]);
      }
      StripNoop(n);
      assert Lower(n) == n;
    }
  }

  // ----- the service ----------------------------------------------------

  /** A stored user. */
  datatype User = User(id: int, username: string, passwordHash: string, passwordSalt: string, isAdmin: bool)

  datatype Outcome = Success(user: User) | Failure(code: ErrorCode, message: string)

  const InvalidCredentialsFailure := Failure(InvalidCredentials, "Invalid username or password.")

  /** The largest id in the table, 0 for an empty table. */
  function MaxId(users: seq<User>): (m: int)
    ensures forall i :: 0 <= i < |users| ==> users[i].id <= m
    ensures m >= 0
  {
    if users == [] then 0
    else
      var rest := MaxId(users[..|users| - 1]);
      var last := users[|users| - 1].id;
      if last > rest then last else rest
  }

  /** The first user with a given name, as `.filter(...).first()` returns it. */
  function FindByName(users: seq<User>, name: string): (r: Option<User>)
    ensures r.None? <==> forall i :: 0 <= i < |users| ==> users[i].username != name
    ensures r.Some? ==> r.value in users && r.value.username == name
  {
    if users == [] then None
    else if users[0].username == name then Some(users[0])
    else FindByName(users[1..], name)
  }

  /** The position of the user with an id, if any. */
  function FindById(users: seq<User>, id: int): (r: Option<nat>)
    ensures r.None? <==> forall i :: 0 <= i < |users| ==> users[i].id != id
    ensures r.Some? ==> r.value < |users| && users[r.value].id == id
  {
    if users == [] then None
    else if users[0].id == id then Some(0)
    else
      var k := FindById(users[1..], id);
      if k.Some? then Some(k.value + 1) else None
  }

  /** Ids and usernames are each unique, as the table's key and unique constraint make them. */
  predicate Distinct(users: seq<User>)
  {
    && (forall i, j :: 0 <= i < j < |users| ==> users[i].id != users[j].id)
    && (forall i, j :: 0 <= i < j < |users| ==> users[i].username != users[j].username)
  }

  /** Replacing a user's password keeps ids and names unique. */
  lemma ReplaceKeepsDistinct(users: seq<User>, k: nat, u: User)
    requires Distinct(users) && k < |users|
    requires u.id == users[k].id && u.username == users[k].username
    ensures Distinct(users[k := u])
  {
    var updated := users[k := u];
    forall i, j | 0 <= i < j < |updated|
      ensures updated[i].id != updated[j].id && updated[i].username != updated[j].username
    {
      assert updated[i].id == users[i].id && updated[j].id == users[j].id;
      assert updated[i].username == users[i].username && updated[j].username == users[j].username;
    }
  }

  /** `verify_password(password, salt, hash)` for a stored user: an empty password never matches. */
  predicate Matches(digest: (string, string) -> string, password: string, user: User)
  {
    password != [] && digest(password, user.passwordSalt) == user.passwordHash
  }

  /** The first failing check of `register`, in the order the source makes them. */
  function RegisterCheck(users: seq<User>, policy: PasswordPolicy, username: Option<string>, password: Option<string>, confirm: Option<string>): (r: Option<ErrorCode>)
    ensures |users| > 0 ==> r == Some(RegistrationDisabled)
    ensures r.None? ==> (users == [] && NormalizeUsername(username) != [] && policy.Validate(password).Valid?
      && password == confirm)
    ensures users == [] && NormalizeUsername(username) == [] ==> r == Some(UsernameRequired)
  {
    if |users| > 0 then Some(RegistrationDisabled)
    else if NormalizeUsername(username) == [] then Some(UsernameRequired)
    else if policy.Validate(password).Invalid? then Some(policy.Validate(password).code)
    else if password != confirm then Some(Mismatch)
    else if FindByName(users, NormalizeUsername(username)).Some? then Some(UsernameTaken)
    else None
  }

  /** The first failing check of `change_password`, in the order the source makes them. */
  function ChangeCheck(users: seq<User>, policy: PasswordPolicy, digest: (string, string) -> string, userId: int, current: string, newPassword: string, confirm: string): (r: Option<ErrorCode>)
    ensures current == [] || newPassword == [] || confirm == [] ==> r == Some(MissingFields)
    ensures r.None? ==> (FindById(users, userId).Some? && policy.Validate(Some(newPassword)).Valid? && newPassword == confirm
      && Matches(digest, current, users[FindById(users, userId).value]))
  {
    if current == [] || newPassword == [] || confirm == [] then Some(MissingFields)
    else if policy.Validate(Some(newPassword)).Invalid? then Some(policy.Validate(Some(newPassword)).code)
    else if newPassword != confirm then Some(Mismatch)
    else if FindById(users, userId).None? then Some(MissingUser)
    else
      var user := users[FindById(users, userId).value];
      if !Matches(digest, current, user) then Some(InvalidCurrent)
      else None
  }

  class IdentityService {
    var users: seq<User>
    const policy: PasswordPolicy
    const digest: (string, string) -> string

    /** Ids and usernames are each unique, as the table's key and unique constraint make them. */
    predicate Valid()
      reads this
    {
      Distinct(users)
    }

    constructor (users: seq<User>, policy: PasswordPolicy, digest: (string, string) -> string)
      ensures this.users == users && this.policy == policy && this.digest == digest
    {
      this.users := users;
      this.policy := policy;
      this.digest := digest;
    }

    /** `allow_self_registration`: only while no user exists. */
    function AllowSelfRegistration(): (allowed: bool)
      reads this
      ensures allowed <==> users == []
    {
      |users| == 0
    }

    /**
     * `authenticate(username, password)`: missing data first; an unknown
     * name and a wrong password then give the one and same failure.
     */
    method Authenticate(username: Option<string>, password: string) returns (r: Outcome)
      ensures NormalizeUsername(username) == [] || password == [] <==> r.Failure? && r.code == MissingCredentials
      ensures r.Success? <==> (NormalizeUsername(username) != [] && password != []
        && FindByName(users, NormalizeUsername(username)).Some?
        && Matches(digest, password, FindByName(users, NormalizeUsername(username)).value))
      ensures r.Success? ==> r.user in users && r.user.username == NormalizeUsername(username)
      ensures r.Failure? && r.code != MissingCredentials ==> r == InvalidCredentialsFailure
    {
      var normalized := NormalizeUsername(username);
      if normalized == [] || password == [] {
        return Failure(MissingCredentials, "Username and password are required.");
      }
      var user := FindByName(users, normalized);
      if user.None? {
        return InvalidCredentialsFailure;
      }
      if !Matches(digest, password, user.value) {
        return InvalidCredentialsFailure;
      }
      r := Success(user.value);
    }

    /**
     * `register(username, password, confirm)`: refused once any user
     * exists, then for a blank name, a policy failure, a mismatch and a
     * taken name, in that order. Otherwise one user is added with the
     * normalised name, the digest of the password under `salt`, and admin
     * rights (it is the first user). A failed commit adds nothing.
     */
    method Register(username: Option<string>, password: Option<string>, confirm: Option<string>,
                    salt: string, commitFails: bool) returns (r: Outcome)
      requires Valid()
      modifies this
      ensures Valid()
      ensures var check := RegisterCheck(old(users), policy, username, password, confirm);
        && (check.Some? ==> r.Failure? && r.code == check.value && users == old(users))
        && (check.None? && commitFails ==> r.Failure? && r.code == Unknown && users == old(users))
        && (check.None? && !commitFails ==>
              r.Success? && users == old(users) + [r.user]
              && r.user == User(MaxId(old(users)) + 1, NormalizeUsername(username), digest(password.value, salt), salt, true))
      ensures r.Success? ==> old(users) == [] && |users| == 1 && r.user.isAdmin
    {
      var userCount := |users|;
      if userCount > 0 {
        return Failure(RegistrationDisabled, "Registration is disabled once an account exists.");
      }
      var normalized := NormalizeUsername(username);
      if normalized == [] {
        return Failure(UsernameRequired, "Username is required.");
      }
      var validation := policy.Validate(password);
      if validation.Invalid? {
        return Failure(validation.code, validation.message);
      }
      if password != confirm {
        return Failure(Mismatch, "Passwords do not match.");
      }
      if FindByName(users, normalized).Some? {
        return Failure(UsernameTaken, "Username is already in use.");
      }
      var user := User(MaxId(users) + 1, normalized, digest(password.value, salt), salt, userCount == 0);
      if commitFails {
        return Failure(Unknown, "Failed to create the account due to an unexpected error.");
      }
      users := users + [user];
      r := Success(user);
    }

    /**
     * `change_password(user_id, current, newPassword, confirm)`: missing fields,
     * policy failure, mismatch, unknown user and wrong current password are
     * refused in that order; otherwise the user's salt and hash are replaced
     * and nothing else changes. A failed commit changes nothing.
     */
    method ChangePassword(userId: int, current: string, newPassword: string, confirm: string,
                          salt: string, commitFails: bool) returns (r: Outcome)
      requires Valid()
      modifies this
      ensures Valid()
      ensures var check := ChangeCheck(old(users), policy, digest, userId, current, newPassword, confirm);
        && (check.Some? ==> r.Failure? && r.code == check.value && users == old(users))
        && (check.None? && commitFails ==> r.Failure? && r.code == Unknown && users == old(users))
        && (check.None? && !commitFails ==>
              var k := FindById(old(users), userId).value;
              var u := old(users)[k];
              && r == Success(u.(passwordSalt := salt, passwordHash := digest(newPassword, salt)))
              && users == old(users)[k := r.user])
    {
      if current == [] || newPassword == [] || confirm == [] {
        return Failure(MissingFields, "All password fields are required.");
      }
      var validation := policy.Validate(Some(newPassword));
      if validation.Invalid? {
        return Failure(validation.code, validation.message);
      }
      if newPassword != confirm {
        return Failure(Mismatch, "Passwords do not match.");
      }
      var found := FindById(users, userId);
      if found.None? {
        return Failure(MissingUser, "User could not be found.");
      }
      var user := users[found.value];
      if !Matches(digest, current, user) {
        return Failure(InvalidCurrent, "Current password is incorrect.");
      }
      var updated := user.(passwordSalt := salt, passwordHash := digest(newPassword, salt));
      if commitFails {
        return Failure(Unknown, "Failed to update the password due to an unexpected error.");
      }
      ReplaceKeepsDistinct(users, found.value, updated);
      users := users[found.value := updated];
      r := Success(updated);
    }
  }

  /** A registered user can sign in with the password and (any spelling of) the name it registered with. */
  lemma RegisteredCanSignIn(users: seq<User>, username: Option<string>, password: string, salt: string,
                            digest: (string, string) -> string, id: int, spelling: Option<string>)
    requires password != [] && NormalizeUsername(username) != []
    requires NormalizeUsername(spelling) == NormalizeUsername(username)
    requires users == [User(id, NormalizeUsername(username), digest(password, salt), salt, true)]
    ensures var u := FindByName(users, NormalizeUsername(spelling));
      u.Some? && u.value.passwordSalt == salt && digest(password, u.value.passwordSalt) == u.value.passwordHash
  {
  }
}
