/** `AuthService`: registration, e-mail verification and login over the
    `users` table. Password hashing, token signing and checking, and the
    mailer are the outside world: they come in as a `Crypto` value and as
    fault inputs. */
module AuthService {
  import opened Wrappers
  import opened Records
  import opened Database
  import opened EmailRepository
  import opened UserRepository

  /** The payload a token carries: `{ email }` from `register`,
      `{ userId }` from `login`. */
  datatype Claims = EmailClaims(email: string) | UserClaims(userId: int)

  /** The foreign calls: bcrypt's hash and compare (a `Failure` is what
      they throw), `jwt.sign`, and `jwt.verify` (`None` when it throws). */
  datatype Crypto = Crypto(
    hash: string -> Result<string, string>,
    compare: (string, string) -> Result<bool, string>,
    sign: Claims -> string,
    verify: string -> Option<Claims>)

  datatype Registered = Registered(id: int, email: string, token: string)

  datatype LoggedIn = LoggedIn(user: UserSummary, token: string)

  /** `err instanceof AppError ? err : new AppError(fallback, 500)`. */
  function Rethrown(e: Failure, fallback: string): (r: Failure)
    ensures r.AppError?
    ensures e.AppError? ==> r == e
    ensures !e.AppError? ==> r == AppError(fallback, 500)
  {
    if e.AppError? then e else AppError(fallback, 500)
  }

  const InvalidCredentials := AppError("Invalid email or password", 401)
  const NotVerified := AppError("Email not verified", 403)
  const InvalidToken := AppError("Invalid or expired token", 400)

  /** `login`: it only reads the table, so it is a function of the
      table's value. An unknown address and a wrong password fail alike;
      the password is checked before the `verified` flag. */
  function Login(users: seq<User>, email: string, password: string, crypto: Crypto, fault: Option<DbError>)
    : (r: Result<LoggedIn, Failure>)
    ensures fault.Some? ==> r == Failure(AppError("Error finding user", 500))
    ensures fault.None? && FirstWithEmail(users, email).None? ==> r == Failure(InvalidCredentials)
    ensures r.Success? <==>
            fault.None? && FirstWithEmail(users, email).Some? &&
            var u := users[FirstWithEmail(users, email).value];
            crypto.compare(password, u.passwordHash) == Success(true) && u.verified
    ensures r.Success? ==>
            var u := users[FirstWithEmail(users, email).value];
            r.value == LoggedIn(Summary(u), crypto.sign(UserClaims(u.id)))
    ensures fault.None? && FirstWithEmail(users, email).Some? ==>
            var u := users[FirstWithEmail(users, email).value];
            && (crypto.compare(password, u.passwordHash) == Success(false) ==> r == Failure(InvalidCredentials))
            && (crypto.compare(password, u.passwordHash).Failure? ==> r == Failure(AppError("Login failed", 500)))
            && (crypto.compare(password, u.passwordHash) == Success(true) && !u.verified ==> r == Failure(NotVerified))
  {
    match FindByEmailWithPassword(users, email, fault)
    case Failure(e) => Failure(Rethrown(e, "Login failed"))
    case Success(None) => Failure(InvalidCredentials)
    case Success(Some(u)) =>
      match crypto.compare(password, u.passwordHash)
      case Failure(_) => Failure(Rethrown(PlainError("compare"), "Login failed"))
      case Success(false) => Failure(InvalidCredentials)
      case Success(true) =>
        if !u.verified then Failure(NotVerified)
        else Success(LoggedIn(Summary(u), crypto.sign(UserClaims(u.id))))
  }

  /** A wrong password for a known address gets exactly the answer an
      unknown address gets, so a login attempt does not reveal which
      addresses have accounts. */
  lemma LoginHidesAccounts(users: seq<User>, email: string, other: string, password: string, crypto: Crypto)
    requires FirstWithEmail(users, email).Some?
    requires crypto.compare(password, users[FirstWithEmail(users, email).value].passwordHash) == Success(false)
    requires FirstWithEmail(users, other).None?
    ensures Login(users, email, password, crypto, None) == Login(users, other, password, crypto, None)
  {
  }

  /** The account state machine: for a user whose password matches,
      login is refused with 403 until `verifyUser` runs, and succeeds
      after it. */
  lemma VerifyUnlocksLogin(users: seq<User>, email: string, password: string, crypto: Crypto)
    requires FirstWithEmail(users, email).Some?
    requires !users[FirstWithEmail(users, email).value].verified
    requires crypto.compare(password, users[FirstWithEmail(users, email).value].passwordHash) == Success(true)
    ensures Login(users, email, password, crypto, None) == Failure(NotVerified)
    ensures Login(UpdateByEmail(users, email, MarkVerified), email, password, crypto, None).Success?
  {
    var i := FirstWithEmail(users, email).value;
    var after := UpdateByEmail(users, email, MarkVerified);
    FirstWithEmailAfterUpdate(users, email, MarkVerified);
    assert after[i] == users[i].(verified := true);
  }

  /** An UPDATE by address leaves the first row with that address where
      it was. */
  lemma FirstWithEmailAfterUpdate(users: seq<User>, email: string, c: Change)
    ensures FirstWithEmail(UpdateByEmail(users, email, c), email) == FirstWithEmail(users, email)
  {
    var after := UpdateByEmail(users, email, c);
    assert forall j :: 0 <= j < |users| ==> after[j].email == users[j].email;
    FirstWithEmailSameAddresses(users, after, email);
  }

  /** Which row comes first for an address depends only on the addresses. */
  lemma FirstWithEmailSameAddresses(xs: seq<User>, ys: seq<User>, email: string)
    requires |xs| == |ys| && forall j :: 0 <= j < |xs| ==> xs[j].email == ys[j].email
    ensures FirstWithEmail(xs, email) == FirstWithEmail(ys, email)
  {
    match FirstWithEmail(xs, email)
    case None =>
    case Some(i) =>
      var a := FirstWithEmail(ys, email);
      assert a.Some?;
      assert !(a.value < i) && !(i < a.value);
  }

  class AuthService {
    const repo: UserRepository

    constructor (repo: UserRepository)
      ensures this.repo == repo
    {
      this.repo := repo;
    }

    ghost predicate Valid()
      reads repo.db
    {
      repo.Valid()
    }

    /** `register`: a taken address is refused with 400 before anything is
        hashed or stored; otherwise the hash (never the password) is
        stored in a new unverified row, a token for `{ email }` is signed
        and the verification mail is sent. AppErrors pass through, any
        other error becomes 'Registration failed' (500). A mail that fails
        leaves the new row in place. */
    method Register(email: string, password: string, crypto: Crypto,
                    findFault: Option<DbError>, createFault: Option<DbError>, mailError: Option<string>)
      returns (r: Result<Registered, Failure>)
      requires Valid()
      modifies repo.db
      ensures Valid()
      ensures repo.db.logs == old(repo.db.logs) && repo.db.templates == old(repo.db.templates)
      ensures repo.db.nextLogId == old(repo.db.nextLogId) && repo.db.clock == old(repo.db.clock)
      ensures r.Failure? ==> r.error.AppError?
      ensures findFault.Some? ==> r == Failure(AppError("Error finding user", 500))
      ensures findFault.None? && FirstWithEmail(old(repo.db.users), email).Some? ==>
              r == Failure(AppError("Email already in use", 400))
      ensures findFault.None? && FirstWithEmail(old(repo.db.users), email).None? && crypto.hash(password).Failure? ==>
              r == Failure(AppError("Registration failed", 500))
      ensures findFault.None? && FirstWithEmail(old(repo.db.users), email).None? && crypto.hash(password).Success? ==>
              && (createFault.Some? ==> r == Failure(AppError("Error creating user", 500)))
              && (createFault.None? ==>
                    && repo.db.users == old(repo.db.users) +
                         [User(|old(repo.db.users)| + 1, email, crypto.hash(password).value, false)]
                    && r == (if mailError.Some? then Failure(AppError("Registration failed", 500))
                             else Success(Registered(|old(repo.db.users)| + 1, email, crypto.sign(EmailClaims(email))))))
      ensures repo.db.users == old(repo.db.users) ||
              (findFault.None? && FirstWithEmail(old(repo.db.users), email).None? &&
               crypto.hash(password).Success? && createFault.None?)
    {
      var existing := FindByEmail(repo.db.users, email, findFault);
      if existing.Failure? {
        return Failure(Rethrown(existing.error, "Registration failed"));
      }
      if existing.value.Some? {
        return Failure(AppError("Email already in use", 400));
      }
      var hashed := crypto.hash(password);
      if hashed.Failure? {
        return Failure(Rethrown(PlainError(hashed.error), "Registration failed"));
      }
      var user := repo.CreateUser(email, hashed.value, createFault);
      if user.Failure? {
        return Failure(Rethrown(user.error, "Registration failed"));
      }
      var token := crypto.sign(EmailClaims(email));
      if mailError.Some? {
        return Failure(Rethrown(PlainError(mailError.value), "Registration failed"));
      }
      r := Success(Registered(user.value.id, user.value.email, token));
    }

    /** `verifyEmail`: a token that checks out and names an address with
        an account marks that account verified. Every failure, a bad
        token, a token without an `email` claim, an unknown address or a
        query error, surfaces as 'Invalid or expired token' (400). */
    method VerifyEmail(token: string, crypto: Crypto, fault: Option<DbError>)
      returns (r: Result<UserSummary, Failure>)
      requires Valid()
      modifies repo.db
      ensures Valid()
      ensures repo.db.logs == old(repo.db.logs) && repo.db.templates == old(repo.db.templates)
      ensures repo.db.nextLogId == old(repo.db.nextLogId) && repo.db.clock == old(repo.db.clock)
      ensures r.Failure? ==> r.error == InvalidToken
      ensures r.Success? <==>
              && crypto.verify(token).Some? && crypto.verify(token).value.EmailClaims?
              && fault.None? && FirstWithEmail(old(repo.db.users), crypto.verify(token).value.email).Some?
      ensures r.Success? ==>
              var email := crypto.verify(token).value.email;
              && repo.db.users == UpdateByEmail(old(repo.db.users), email, MarkVerified)
              && r.value == Summary(old(repo.db.users)[FirstWithEmail(old(repo.db.users), email).value])
      ensures r.Failure? ==> repo.db.users == old(repo.db.users)
    {
      var claims := crypto.verify(token);
      if claims.None? || !claims.value.EmailClaims? {
        // `decoded.email` is missing: the UPDATE matches no row.
        return Failure(InvalidToken);
      }
      var user := repo.VerifyUser(claims.value.email, fault);
      if user.Failure? || user.value.None? {
        if user.Success? {
          UpdateWithoutMatch(old(repo.db.users), claims.value.email, MarkVerified);
        }
        return Failure(InvalidToken);
      }
      r := Success(user.value.value);
    }
  }
}
