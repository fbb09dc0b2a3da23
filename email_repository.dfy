/** `EmailRepository`: the operations on the `email_logs` table, with the
    argument and foreign-key checks that precede an insert, the attribution
    of constraint violations, and the newest-first listings. */
module EmailRepository {
  import opened Wrappers
  import opened Strings
  import opened Records
  import opened Database

  /** What the database driver reports when a statement fails. */
  datatype DbError = DbError(code: string, detail: Option<string>, message: string)

  /** The errors the repository throws, each with the message it carries. */
  datatype RepoError =
    | InvalidUserId(userId: int)
    | InvalidEmailTo(emailTo: string)
    | InvalidTemplateId(templateId: int)
    | UserMissing(userId: int)
    | TemplateMissing(templateId: int)
    | UserConstraint(userId: int)
    | TemplateConstraint(templateId: int)
    | LogNotFound(id: int)
    | Driver(error: DbError)
  {
    function Message(): string {
      match this
      case InvalidUserId(u) => "Invalid userId: " + IntToString(u)
      case InvalidEmailTo(e) => "Invalid emailTo: " + e
      case InvalidTemplateId(t) => "Invalid templateId: " + IntToString(t)
      case UserMissing(u) => "User with id " + IntToString(u) + " does not exist in users table"
      case TemplateMissing(t) => "Template with id " + IntToString(t) + " does not exist in email_templates table"
      case UserConstraint(u) => "User with id " + IntToString(u) + " does not exist"
      case TemplateConstraint(t) => "Template with id " + IntToString(t) + " does not exist"
      case LogNotFound(id) => "No email log found with id: " + IntToString(id)
      case Driver(e) => e.message
    }
  }

  /** A row belongs to the listing: any row when no user is given, else
      that user's rows. */
  predicate Owned(log: EmailLog, user: Option<int>) {
    user.None? || log.userId == user.value
  }

  /** The `catch` of `createLog`: a foreign-key violation (SQLSTATE 23503)
      is blamed on the user or the template according to the column the
      driver's detail names; any other error is rethrown unchanged. */
  function AttributeInsertError(e: DbError, userId: int, templateId: int): (r: RepoError)
    ensures r.UserConstraint? ==> r.userId == userId
    ensures r.TemplateConstraint? ==> r.templateId == templateId
    ensures r.Driver? ==> r.error == e
    ensures (r.UserConstraint? || r.TemplateConstraint?) <==>
            (e.code == "23503" && e.detail.Some? &&
             (Includes(e.detail.value, "user_id") || Includes(e.detail.value, "template_id")))
    ensures r.UserConstraint? <==> e.code == "23503" && e.detail.Some? && Includes(e.detail.value, "user_id")
  {
    if e.code == "23503" && e.detail.Some? && Includes(e.detail.value, "user_id") then UserConstraint(userId)
    else if e.code == "23503" && e.detail.Some? && Includes(e.detail.value, "template_id") then TemplateConstraint(templateId)
    else Driver(e)
  }

  /** The errors the driver raises for the two SELECTs of
      `validateForeignKeys`, the user's and the template's; `None` when the
      statement runs. */
  datatype LookupFaults = LookupFaults(user: Option<DbError>, template: Option<DbError>)

  const NoLookupFaults := LookupFaults(None, None)

  /** `createLog`'s `catch` sees every error of its `try`: the driver's
      errors, from a lookup or the insert, go through the foreign-key
      attribution; its own checks' errors carry no SQLSTATE and are
      rethrown as they are. */
  function CaughtByCreateLog(e: RepoError, userId: int, templateId: int): (r: RepoError)
    ensures !e.Driver? ==> r == e
    ensures e.Driver? ==> r == AttributeInsertError(e.error, userId, templateId)
  {
    if e.Driver? then AttributeInsertError(e.error, userId, templateId) else e
  }

  /** Slice bounds for `LIMIT limit OFFSET offset` over `n` rows. */
  function Clamp(x: int, n: nat): (r: nat)
    ensures r <= n && (0 <= x <= n ==> r == x)
  {
    if x < 0 then 0 else if x > n then n else x
  }

  /** `LIMIT limit OFFSET offset` over rows in a fixed order. */
  function Page<T>(all: seq<T>, limit: nat, offset: nat): (r: seq<T>)
    ensures |r| <= limit
    ensures |r| == limit || offset + |r| >= |all|
    ensures forall k :: 0 <= k < |r| ==> offset + k < |all| && r[k] == all[offset + k]
  {
    all[Clamp(offset, |all|)..Clamp(offset + limit, |all|)]
  }

  class EmailRepository {
    const db: Db

    constructor (db: Db)
      ensures this.db == db
    {
      this.db := db;
    }

    ghost predicate Valid()
      reads db
    {
      db.Valid()
    }

    /** `validateForeignKeys`: the user is looked up first, then the
        template. A lookup the driver fails rethrows the driver's error. */
    function ValidateForeignKeys(userId: int, templateId: int, lookups: LookupFaults): (r: Outcome<RepoError>)
      reads db
      ensures r == Pass <==>
              lookups.user.None? && db.UserExists(userId) && lookups.template.None? && db.TemplateExists(templateId)
      ensures lookups.user.Some? ==> r == Fail(Driver(lookups.user.value))
      ensures lookups.user.None? && !db.UserExists(userId) ==> r == Fail(UserMissing(userId))
      ensures lookups.user.None? && db.UserExists(userId) && lookups.template.Some? ==>
              r == Fail(Driver(lookups.template.value))
      ensures lookups.user.None? && db.UserExists(userId) && lookups.template.None? && !db.TemplateExists(templateId) ==>
              r == Fail(TemplateMissing(templateId))
    {
      if lookups.user.Some? then Fail(Driver(lookups.user.value))
      else if !db.UserExists(userId) then Fail(UserMissing(userId))
      else if lookups.template.Some? then Fail(Driver(lookups.template.value))
      else if !db.TemplateExists(templateId) then Fail(TemplateMissing(templateId))
      else Pass
    }

    /** The checks `createLog` makes before it inserts, in their order:
        the user id, the address, the template id, then the two foreign
        keys. */
    function CreateLogCheck(userId: int, emailTo: string, templateId: int, lookups: LookupFaults): (r: Outcome<RepoError>)
      reads db
      ensures r == Pass <==>
              userId > 0 && Trim(emailTo) != [] && templateId > 0 && lookups == NoLookupFaults &&
              db.UserExists(userId) && db.TemplateExists(templateId)
      ensures userId <= 0 ==> r == Fail(InvalidUserId(userId))
      ensures userId > 0 && Trim(emailTo) == [] ==> r == Fail(InvalidEmailTo(emailTo))
      ensures userId > 0 && Trim(emailTo) != [] && templateId <= 0 ==> r == Fail(InvalidTemplateId(templateId))
      ensures r.Fail? && r.error.UserMissing? ==> !db.UserExists(userId)
      ensures r.Fail? && r.error.TemplateMissing? ==> db.UserExists(userId) && !db.TemplateExists(templateId)
      ensures r.Fail? && r.error.Driver? ==> lookups.user == Some(r.error.error) || lookups.template == Some(r.error.error)
    {
      if userId <= 0 then Fail(InvalidUserId(userId))
      else if Trim(emailTo) == [] then Fail(InvalidEmailTo(emailTo))
      else if templateId <= 0 then Fail(InvalidTemplateId(templateId))
      else ValidateForeignKeys(userId, templateId, lookups)
    }

    /** `createLog`: on success exactly one `pending` row is added, under
        a fresh id, holding the trimmed address; on any failure the table
        is unchanged. `lookups` are the errors of the two foreign-key
        SELECTs and `insertFault` the error the INSERT raises, if any. */
    method CreateLog(userId: int, emailTo: string, templateId: int, lookups: LookupFaults, insertFault: Option<DbError>)
      returns (r: Result<EmailLog, RepoError>)
      requires Valid()
      modifies db
      ensures Valid()
      ensures db.users == old(db.users) && db.templates == old(db.templates)
      ensures old(CreateLogCheck(userId, emailTo, templateId, lookups)).Fail? ==>
              r == Failure(CaughtByCreateLog(old(CreateLogCheck(userId, emailTo, templateId, lookups)).error, userId, templateId))
      ensures old(CreateLogCheck(userId, emailTo, templateId, lookups)) == Pass && insertFault.Some? ==>
              r == Failure(AttributeInsertError(insertFault.value, userId, templateId))
      ensures r.Failure? ==> db.logs == old(db.logs) && db.nextLogId == old(db.nextLogId) && db.clock == old(db.clock)
      ensures r.Success? <==> old(CreateLogCheck(userId, emailTo, templateId, lookups)) == Pass && insertFault.None?
      ensures r.Success? ==>
              && old(db.nextLogId) !in old(db.logs)
              && r.value == EmailLog(old(db.nextLogId), userId, Trim(emailTo), templateId,
                                     Pending, None, old(db.clock) + 1, old(db.clock) + 1)
              && db.logs == old(db.logs)[r.value.id := r.value]
              && db.nextLogId == old(db.nextLogId) + 1
              && db.clock == old(db.clock) + 1
    {
      var check := CreateLogCheck(userId, emailTo, templateId, lookups);
      if check.Fail? {
        return Failure(CaughtByCreateLog(check.error, userId, templateId));
      }
      if insertFault.Some? {
        return Failure(AttributeInsertError(insertFault.value, userId, templateId));
      }
      var log := db.InsertLog(userId, Trim(emailTo), templateId);
      r := Success(log);
    }

    /** `ensureDefaultTemplate`: the first template's id when there is one,
        otherwise the id of a newly inserted "Default Template". */
    method EnsureDefaultTemplate() returns (id: int)
      requires Valid()
      modifies db
      ensures Valid()
      ensures db.logs == old(db.logs) && db.users == old(db.users) && db.clock == old(db.clock)
      ensures (db.templates, id) == WithDefaultTemplate(old(db.templates))
      ensures db.TemplateExists(id)
    {
      if |db.templates| > 0 {
        return db.templates[0].id;
      }
      var t := Template(1, "Default Template", "Default Subject", "Default email body");
      db.templates := [t];
      id := t.id;
    }

    /** `updateLogStatus`: a failing query (`fault`) or an unknown id
        fails and changes nothing; a known id gets the trimmed status, the
        given error message (`null` when omitted) and a new `updated_at`,
        and no other row changes. */
    method UpdateLogStatus(id: int, status: string, errorMessage: Option<string>, fault: Option<DbError>)
      returns (r: Result<EmailLog, RepoError>)
      requires Valid()
      modifies db
      ensures Valid()
      ensures db.users == old(db.users) && db.templates == old(db.templates) && db.nextLogId == old(db.nextLogId)
      ensures fault.Some? ==> r == Failure(Driver(fault.value))
      ensures fault.None? && id !in old(db.logs) ==> r == Failure(LogNotFound(id))
      ensures r.Failure? <==> fault.Some? || id !in old(db.logs)
      ensures r.Failure? ==> db.logs == old(db.logs) && db.clock == old(db.clock)
      ensures r.Success? ==>
              && r.value == old(db.logs)[id].(status := Trim(status), errorMessage := errorMessage,
                                               updatedAt := old(db.clock) + 1)
              && db.logs == old(db.logs)[id := r.value]
              && db.clock == old(db.clock) + 1
    {
      if fault.Some? {
        return Failure(Driver(fault.value));
      }
      if id !in db.logs {
        return Failure(LogNotFound(id));
      }
      var now := db.clock + 1;
      var log := db.logs[id].(status := Trim(status), errorMessage := errorMessage, updatedAt := now);
      db.logs := db.logs[id := log];
      db.clock := now;
      r := Success(log);
    }

    /** The rows with id below `hi` that `user` owns, newest first. */
    function RowsBelow(hi: int, user: Option<int>): (r: seq<EmailLog>)
      reads db
      requires Valid()
      ensures forall k :: 0 <= k < |r| ==>
                r[k].id < hi && r[k].id in db.logs && db.logs[r[k].id] == r[k] && Owned(r[k], user)
      ensures forall id :: id in db.logs && id < hi && Owned(db.logs[id], user) ==> db.logs[id] in r
      ensures forall j, k :: 0 <= j < k < |r| ==> r[j].createdAt > r[k].createdAt
      decreases hi
    {
      if hi <= 1 then []
      else
        var rest := RowsBelow(hi - 1, user);
        if hi - 1 in db.logs && Owned(db.logs[hi - 1], user) then [db.logs[hi - 1]] + rest else rest
    }

    /** `getLogsByUser`: exactly that user's rows, each once, in strictly
        decreasing `created_at`; empty when the user has none. */
    function GetLogsByUser(userId: int): (r: seq<EmailLog>)
      reads db
      requires Valid()
      ensures forall k :: 0 <= k < |r| ==> r[k].id in db.logs && db.logs[r[k].id] == r[k] && r[k].userId == userId
      ensures forall id :: id in db.logs && db.logs[id].userId == userId ==> db.logs[id] in r
      ensures forall j, k :: 0 <= j < k < |r| ==> r[j].createdAt > r[k].createdAt
    {
      RowsBelow(db.nextLogId, Some(userId))
    }

    /** All rows, newest first: the order `listLogs` pages through. */
    function AllLogs(): (r: seq<EmailLog>)
      reads db
      requires Valid()
      ensures forall k :: 0 <= k < |r| ==> r[k].id in db.logs && db.logs[r[k].id] == r[k]
      ensures forall id :: id in db.logs ==> db.logs[id] in r
      ensures forall j, k :: 0 <= j < k < |r| ==> r[j].createdAt > r[k].createdAt
    {
      RowsBelow(db.nextLogId, None)
    }

    /** `listLogs`: at most `limit` rows of the newest-first order, after
        skipping `offset` of them. */
    function ListLogs(limit: nat, offset: nat): (r: seq<EmailLog>)
      reads db
      requires Valid()
      ensures |r| <= limit
      ensures |r| == limit || offset + |r| >= |AllLogs()|
      ensures forall k :: 0 <= k < |r| ==> offset + k < |AllLogs()| && r[k] == AllLogs()[offset + k]
    {
      Page(AllLogs(), limit, offset)
    }

    /** `getLogById`: the row, or `null` (None) when there is none; a
        missing id is not an error. */
    function GetLogById(id: int): (r: Option<EmailLog>)
      reads db
      ensures r.None? <==> id !in db.logs
      ensures r.Some? ==> r.value == db.logs[id]
    {
      if id in db.logs then Some(db.logs[id]) else None
    }

    /** `deleteLog`: removes exactly that row, or fails when it is absent. */
    method DeleteLog(id: int) returns (r: Outcome<RepoError>)
      requires Valid()
      modifies db
      ensures Valid()
      ensures db.users == old(db.users) && db.templates == old(db.templates)
      ensures db.nextLogId == old(db.nextLogId) && db.clock == old(db.clock)
      ensures id !in old(db.logs) ==> r == Fail(LogNotFound(id)) && db.logs == old(db.logs)
      ensures id in old(db.logs) ==> r == Pass && db.logs == old(db.logs) - {id}
    {
      if id !in db.logs {
        return Fail(LogNotFound(id));
      }
      db.logs := db.logs - {id};
      r := Pass;
    }
  }

  /** The template table after `ensureDefaultTemplate`, with the id it
      returns. */
  function WithDefaultTemplate(templates: seq<Template>): (seq<Template>, int) {
    if |templates| > 0 then (templates, templates[0].id)
    else ([Template(1, "Default Template", "Default Subject", "Default email body")], 1)
  }

  /** A second `ensureDefaultTemplate` inserts nothing and returns the same
      id as the first. */
  lemma EnsureDefaultTemplateIdempotent(templates: seq<Template>)
    ensures var (once, id) := WithDefaultTemplate(templates);
            WithDefaultTemplate(once) == (once, id)
  {
  }

  /** The classification `validateUserAndTemplate` applies to a repository
      message can tell the user and template errors apart: only the user
      messages contain "User with id", and the template ones contain
      "Template with id". */
  lemma ForeignKeyMessagesClassify(e: RepoError)
    requires e.UserMissing? || e.TemplateMissing? || e.UserConstraint? || e.TemplateConstraint?
    ensures Includes(e.Message(), "User with id") <==> (e.UserMissing? || e.UserConstraint?)
    ensures (e.TemplateMissing? || e.TemplateConstraint?) ==> Includes(e.Message(), "Template with id")
  {
    if e.UserMissing? || e.UserConstraint? {
      UserMessage(e);
    } else {
      TemplateMessage(e);
    }
  }

  lemma UserMessage(e: RepoError)
    requires e.UserMissing? || e.UserConstraint?
    ensures Includes(e.Message(), "User with id")
  {
    var m := e.Message();
    assert m[..12] == "User with id";
    StartsWithIncludes(m, "User with id");
  }

  lemma TemplateMessage(e: RepoError)
    requires e.TemplateMissing? || e.TemplateConstraint?
    ensures Includes(e.Message(), "Template with id")
    ensures !Includes(e.Message(), "User with id")
  {
    if e.TemplateMissing? {
      TemplateText(e.templateId, " does not exist in email_templates table");
    } else {
      TemplateText(e.templateId, " does not exist");
    }
  }

  lemma TemplateText(t: int, tail: string)
    requires 'U' !in tail
    ensures Includes("Template with id " + IntToString(t) + tail, "Template with id")
    ensures !Includes("Template with id " + IntToString(t) + tail, "User with id")
  {
    var m := "Template with id " + IntToString(t) + tail;
    assert m[..16] == "Template with id";
    StartsWithIncludes(m, "Template with id");
    assert 'U' !in IntToString(t);
    assert 'U' !in m;
    MissingCharExcludes(m, "User with id", 'U');
  }
}
