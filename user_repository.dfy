/** `UserRepository`: the queries on the `users` table. Each query's
    projection is a datatype of its own, so which columns a query returns
    is fixed by its result type: only `findByEmailWithPassword` yields a
    row with `password_hash`. */
module UserRepository {
  import opened Wrappers
  import opened Records
  import opened Database
  import opened EmailRepository

  /** `RETURNING id, email` and `SELECT id, email`. */
  datatype UserSummary = UserSummary(id: int, email: string)

  /** `SELECT id, email, verified`. */
  datatype UserInfo = UserInfo(id: int, email: string, verified: bool)

  function Summary(u: User): UserSummary {
    UserSummary(u.id, u.email)
  }

  /** The row `rows[0]` of a query `WHERE email = $1`: the first row, in
      id order, with that address. */
  function FirstWithEmail(users: seq<User>, email: string): (r: Option<nat>)
    ensures r.Some? ==> r.value < |users| && users[r.value].email == email
    ensures r.Some? ==> forall j :: 0 <= j < r.value ==> users[j].email != email
    ensures r.None? <==> forall j :: 0 <= j < |users| ==> users[j].email != email
  {
    if users == [] then None
    else if users[0].email == email then Some(0)
    else
      match FirstWithEmail(users[1..], email)
      case None => None
      case Some(i) => Some(i + 1)
  }

  /** The two `UPDATE users SET ... WHERE email = $1` statements. */
  datatype Change = MarkVerified | SetHash(hash: string)

  function Apply(u: User, c: Change): User {
    match c
    case MarkVerified => u.(verified := true)
    case SetHash(h) => u.(passwordHash := h)
  }

  /** The table after an UPDATE that applies `c` to every row with that
      address. */
  function UpdateByEmail(users: seq<User>, email: string, c: Change): (r: seq<User>)
    ensures |r| == |users|
    ensures forall i :: 0 <= i < |users| ==>
              r[i] == if users[i].email == email then Apply(users[i], c) else users[i]
  {
    if users == [] then []
    else [if users[0].email == email then Apply(users[0], c) else users[0]] + UpdateByEmail(users[1..], email, c)
  }

  /** The same UPDATE run twice leaves the table as after one run:
      `verifyUser` and `updatePassword` are idempotent. */
  lemma {:induction false} UpdateByEmailIdempotent(users: seq<User>, email: string, c: Change)
    ensures UpdateByEmail(UpdateByEmail(users, email, c), email, c) == UpdateByEmail(users, email, c)
  {
    if users != [] {
      UpdateByEmailIdempotent(users[1..], email, c);
    }
  }

  /** An UPDATE by address touches only that column of those rows: ids,
      addresses and the other columns stay, and rows with other addresses
      are untouched. */
  lemma UpdateKeepsOtherColumns(users: seq<User>, email: string, c: Change)
    ensures var r := UpdateByEmail(users, email, c);
            forall i :: 0 <= i < |users| ==>
              && r[i].id == users[i].id && r[i].email == users[i].email
              && (c.MarkVerified? ==> r[i].passwordHash == users[i].passwordHash)
              && (c.SetHash? ==> r[i].verified == users[i].verified)
  {
  }

  /** An UPDATE whose address no row has changes nothing. */
  lemma UpdateWithoutMatch(users: seq<User>, email: string, c: Change)
    requires FirstWithEmail(users, email).None?
    ensures UpdateByEmail(users, email, c) == users
  {
  }

  /* The queries that only read are functions of the table's value. */

  /** `findByEmail`: the id, address and flag of the first row with that
      address, or `null`. */
  function FindByEmail(users: seq<User>, email: string, fault: Option<DbError>): (r: Result<Option<UserInfo>, Failure>)
    ensures fault.Some? ==> r == Failure(AppError("Error finding user", 500))
    ensures fault.None? ==> r.Success?
    ensures r.Success? && r.value.None? ==> forall j :: 0 <= j < |users| ==> users[j].email != email
    ensures r.Success? && r.value.Some? ==>
            exists j :: 0 <= j < |users| && users[j].email == email &&
                        (forall k :: 0 <= k < j ==> users[k].email != email) &&
                        r.value.value == UserInfo(users[j].id, email, users[j].verified)
  {
    if fault.Some? then Failure(AppError("Error finding user", 500))
    else
      match FirstWithEmail(users, email)
      case None => Success(None)
      case Some(i) => Success(Some(UserInfo(users[i].id, users[i].email, users[i].verified)))
  }

  /** `findByEmailWithPassword`: the same row with its hash. */
  function FindByEmailWithPassword(users: seq<User>, email: string, fault: Option<DbError>): (r: Result<Option<User>, Failure>)
    ensures fault.Some? ==> r == Failure(AppError("Error finding user", 500))
    ensures fault.None? ==> r.Success?
    ensures r.Success? && r.value.None? ==> forall j :: 0 <= j < |users| ==> users[j].email != email
    ensures r.Success? && r.value.Some? ==>
            exists j :: 0 <= j < |users| && users[j].email == email &&
                        (forall k :: 0 <= k < j ==> users[k].email != email) &&
                        r.value.value == users[j]
  {
    if fault.Some? then Failure(AppError("Error finding user", 500))
    else
      match FirstWithEmail(users, email)
      case None => Success(None)
      case Some(i) => Success(Some(users[i]))
  }

  /** `findById`: no `catch`, so a query error reaches the caller as the
      driver raised it. */
  function FindById(users: seq<User>, id: int, fault: Option<DbError>): (r: Result<Option<UserSummary>, Failure>)
    ensures fault.Some? ==> r == Failure(PlainError(fault.value.message))
    ensures fault.None? ==> r.Success? && (r.value.Some? <==> 1 <= id <= |users|)
    ensures r.Success? && r.value.Some? ==> r.value.value == Summary(users[id - 1])
  {
    if fault.Some? then Failure(PlainError(fault.value.message))
    else if 1 <= id <= |users| then Success(Some(Summary(users[id - 1])))
    else Success(None)
  }

  /** `findByEmail` finds the row `findByEmailWithPassword` finds and
      returns it without its hash. */
  lemma FindByEmailOmitsHash(users: seq<User>, email: string, fault: Option<DbError>)
    ensures match FindByEmailWithPassword(users, email, fault)
            case Failure(e) => FindByEmail(users, email, fault) == Failure(e)
            case Success(None) => FindByEmail(users, email, fault) == Success(None)
            case Success(Some(u)) => FindByEmail(users, email, fault) == Success(Some(UserInfo(u.id, u.email, u.verified)))
  {
  }

  class UserRepository {
    const db: Db

    constructor (db: Db)
      ensures this.db == db
    {
      this.db := db;
    }

    ghost predicate Valid()
      reads db
    {
      db.Valid()
    }

    /** `createUser`: adds one unverified row with the given address and
        hash under the next id and returns its id and address; any query
        error becomes AppError('Error creating user', 500) and adds
        nothing. */
    method CreateUser(email: string, passwordHash: string, fault: Option<DbError>)
      returns (r: Result<UserSummary, Failure>)
      requires Valid()
      modifies db
      ensures Valid()
      ensures db.logs == old(db.logs) && db.templates == old(db.templates)
      ensures db.nextLogId == old(db.nextLogId) && db.clock == old(db.clock)
      ensures fault.Some? ==> r == Failure(AppError("Error creating user", 500)) && db.users == old(db.users)
      ensures fault.None? ==>
              && db.users == old(db.users) + [User(|old(db.users)| + 1, email, passwordHash, false)]
              && r == Success(UserSummary(|old(db.users)| + 1, email))
    {
      if fault.Some? {
        return Failure(AppError("Error creating user", 500));
      }
      var u := User(|db.users| + 1, email, passwordHash, false);
      db.users := db.users + [u];
      r := Success(Summary(u));
    }

    /** The shared body of `verifyUser` and `updatePassword`: apply the
        change to every row with that address and return the first of
        them, or `null`; a query error becomes AppError(`message`, 500)
        and changes nothing. */
    method UpdateWhereEmail(email: string, c: Change, message: string, fault: Option<DbError>)
      returns (r: Result<Option<UserSummary>, Failure>)
      requires Valid()
      modifies db
      ensures Valid()
      ensures db.logs == old(db.logs) && db.templates == old(db.templates)
      ensures db.nextLogId == old(db.nextLogId) && db.clock == old(db.clock)
      ensures fault.Some? ==> r == Failure(AppError(message, 500)) && db.users == old(db.users)
      ensures fault.None? ==> db.users == UpdateByEmail(old(db.users), email, c)
      ensures fault.None? ==> r == Success(match FirstWithEmail(old(db.users), email)
                                           case None => None
                                           case Some(i) => Some(Summary(old(db.users)[i])))
    {
      if fault.Some? {
        return Failure(AppError(message, 500));
      }
      var first := FirstWithEmail(db.users, email);
      var found := if first.Some? then Some(Summary(db.users[first.value])) else None;
      db.users := UpdateByEmail(db.users, email, c);
      r := Success(found);
    }

    /** `verifyUser`: sets `verified` on the rows with that address. */
    method VerifyUser(email: string, fault: Option<DbError>) returns (r: Result<Option<UserSummary>, Failure>)
      requires Valid()
      modifies db
      ensures Valid()
      ensures db.logs == old(db.logs) && db.templates == old(db.templates)
      ensures db.nextLogId == old(db.nextLogId) && db.clock == old(db.clock)
      ensures fault.Some? ==> r == Failure(AppError("Error verifying user", 500)) && db.users == old(db.users)
      ensures fault.None? ==> db.users == UpdateByEmail(old(db.users), email, MarkVerified)
      ensures fault.None? ==> r == Success(match FirstWithEmail(old(db.users), email)
                                           case None => None
                                           case Some(i) => Some(Summary(old(db.users)[i])))
    {
      r := UpdateWhereEmail(email, MarkVerified, "Error verifying user", fault);
    }

    /** `updatePassword`: replaces `password_hash` on the rows with that
        address. */
    method UpdatePassword(email: string, passwordHash: string, fault: Option<DbError>)
      returns (r: Result<Option<UserSummary>, Failure>)
      requires Valid()
      modifies db
      ensures Valid()
      ensures db.logs == old(db.logs) && db.templates == old(db.templates)
      ensures db.nextLogId == old(db.nextLogId) && db.clock == old(db.clock)
      ensures fault.Some? ==> r == Failure(AppError("Error updating password", 500)) && db.users == old(db.users)
      ensures fault.None? ==> db.users == UpdateByEmail(old(db.users), email, SetHash(passwordHash))
      ensures fault.None? ==> r == Success(match FirstWithEmail(old(db.users), email)
                                           case None => None
                                           case Some(i) => Some(Summary(old(db.users)[i])))
    {
      r := UpdateWhereEmail(email, SetHash(passwordHash), "Error updating password", fault);
    }
  }
}
