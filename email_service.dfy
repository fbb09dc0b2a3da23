/** `EmailService`: `queueBulkEmails`, which checks the user and template
    once, splits the addresses into valid and invalid ones, and for each
    valid one creates a delivery log and enqueues a job carrying its id,
    reporting progress to the user's room as it goes; plus the mapping of
    reference errors in `validateUserAndTemplate` and `getLogs`.

    The `p-limit` pool runs the per-recipient tasks one after another here;
    the counts it reports do not depend on their interleaving. */
module EmailService {
  import opened Wrappers
  import opened Strings
  import opened Seqs
  import opened Records
  import opened Database
  import opened EmailRepository
  import opened EmailQueue
  import opened Sockets

  /** An entry is valid when its trimmed form is non-empty and passes
      `validator.isEmail`, which the model leaves abstract. */
  predicate Accepted(e: string, isEmail: string -> bool) {
    Trim(e) != [] && isEmail(Trim(e))
  }

  /** `emails.filter(...)` keeping the valid entries, untrimmed. */
  function ValidEmails(emails: seq<string>, isEmail: string -> bool): (r: seq<string>)
    ensures forall k :: 0 <= k < |r| ==> Accepted(r[k], isEmail)
  {
    FilterAllKeep(emails, e => Accepted(e, isEmail));
    Filter(emails, e => Accepted(e, isEmail))
  }

  /** `emails.filter(...)` keeping the invalid entries, untrimmed. */
  function InvalidEmails(emails: seq<string>, isEmail: string -> bool): (r: seq<string>)
    ensures forall k :: 0 <= k < |r| ==> !Accepted(r[k], isEmail)
  {
    FilterAllKeep(emails, e => !Accepted(e, isEmail));
    Filter(emails, e => !Accepted(e, isEmail))
  }

  /** Every entry lands in exactly one of the two lists. */
  lemma PartitionSizes(emails: seq<string>, isEmail: string -> bool)
    ensures |ValidEmails(emails, isEmail)| + |InvalidEmails(emails, isEmail)| == |emails|
  {
    FilterComplementSizes(emails, e => Accepted(e, isEmail), e => !Accepted(e, isEmail));
  }

  /** An entry is in the valid list iff it is in the input and valid, and
      in the invalid list iff it is in the input and not valid. */
  lemma PartitionMembership(emails: seq<string>, isEmail: string -> bool, e: string)
    ensures e in ValidEmails(emails, isEmail) <==> e in emails && Accepted(e, isEmail)
    ensures e in InvalidEmails(emails, isEmail) <==> e in emails && !Accepted(e, isEmail)
  {
    FilterMembership(emails, e => Accepted(e, isEmail), e);
    FilterMembership(emails, e => !Accepted(e, isEmail), e);
  }

  /** Both lists keep input order: splitting the input splits them. */
  lemma PartitionConcat(a: seq<string>, b: seq<string>, isEmail: string -> bool)
    ensures ValidEmails(a + b, isEmail) == ValidEmails(a, isEmail) + ValidEmails(b, isEmail)
    ensures InvalidEmails(a + b, isEmail) == InvalidEmails(a, isEmail) + InvalidEmails(b, isEmail)
  {
    FilterConcat(a, b, e => Accepted(e, isEmail));
    FilterConcat(a, b, e => !Accepted(e, isEmail));
  }

  /** What one per-recipient task returns. */
  datatype TaskResult =
    | Queued(email: string, logId: int)
    | NotQueued(email: string, error: string)

  /** The object `queueBulkEmails` resolves to. */
  datatype BulkSummary = BulkSummary(total: nat, valid: nat, invalid: seq<string>, successful: nat, failed: nat)

  /** The jobs the tasks enqueued, in task order. */
  function JobsOf(results: seq<TaskResult>, subject: string, body: string, userId: int): (jobs: seq<Job>)
    ensures |jobs| <= |results|
  {
    if results == [] then []
    else
      var last := results[|results| - 1];
      JobsOf(results[..|results| - 1], subject, body, userId) +
      (if last.Queued? then [Job(last.logId, last.email, subject, body, userId)] else [])
  }

  /** Appending a task appends its job, if any. */
  lemma JobsOfSnoc(results: seq<TaskResult>, res: TaskResult, subject: string, body: string, userId: int)
    ensures JobsOf(results + [res], subject, body, userId) ==
            JobsOf(results, subject, body, userId) + JobsOf([res], subject, body, userId)
  {
    assert (results + [res])[..|results|] == results;
    assert [res][..0] == [];
  }

  function CountQueued(results: seq<TaskResult>): nat {
    if results == [] then 0
    else CountQueued(results[..|results| - 1]) + (if results[|results| - 1].Queued? then 1 else 0)
  }

  function CountNotQueued(results: seq<TaskResult>): nat {
    if results == [] then 0
    else CountNotQueued(results[..|results| - 1]) + (if results[|results| - 1].Queued? then 0 else 1)
  }

  /** `successful + failed` is the number of tasks. */
  lemma {:induction false} CountsAddUp(results: seq<TaskResult>)
    ensures CountQueued(results) + CountNotQueued(results) == |results|
  {
    if results != [] {
      CountsAddUp(results[..|results| - 1]);
    }
  }

  /** One job per successful task: the queue grows by the successful count. */
  lemma {:induction false} JobsCount(results: seq<TaskResult>, subject: string, body: string, userId: int)
    ensures |JobsOf(results, subject, body, userId)| == CountQueued(results)
  {
    if results != [] {
      JobsCount(results[..|results| - 1], subject, body, userId);
    }
  }

  function Room(userId: int): string {
    "user_" + IntToString(userId)
  }

  /** The progress events of the first `n` tasks of `total`, leaving out
      those whose emit threw. */
  function ProgressEmissions(n: nat, total: int, userId: int, emitFault: nat -> bool): (r: seq<Emission>)
    ensures |r| <= n
  {
    if n == 0 then []
    else
      ProgressEmissions(n - 1, total, userId, emitFault) +
      (if emitFault(n - 1) then [] else [Emission(Room(userId), "bulkEmailProgress", BulkProgress(n, total, userId))])
  }

  /** Every event goes to the user's room, names `total`, and the
      `processed` values count up strictly from 1 without passing `n`. */
  predicate ProgressWellFormed(r: seq<Emission>, n: int, total: int, userId: int) {
    && (forall k :: 0 <= k < |r| ==>
          r[k].room == Room(userId) && r[k].event.BulkProgress? &&
          r[k].event.total == total && r[k].event.userId == userId &&
          1 <= r[k].event.processed <= n)
    && (forall j, k :: 0 <= j < k < |r| ==> r[j].event.processed < r[k].event.processed)
  }

  /** The progress events of a run are well formed: `processed` never
      passes the valid count. */
  lemma {:induction false} ProgressBounded(n: nat, total: int, userId: int, emitFault: nat -> bool)
    ensures ProgressWellFormed(ProgressEmissions(n, total, userId, emitFault), n, total, userId)
  {
    if n > 0 {
      var r := ProgressEmissions(n, total, userId, emitFault);
      var r0 := ProgressEmissions(n - 1, total, userId, emitFault);
      ProgressBounded(n - 1, total, userId, emitFault);
      if emitFault(n - 1) {
        assert r == r0;
      } else {
        var e := Emission(Room(userId), "bulkEmailProgress", BulkProgress(n, total, userId));
        assert r == r0 + [e];
        assert forall k :: 0 <= k < |r0| ==> r[k] == r0[k] && r0[k].event.processed <= n - 1;
        assert r[|r0|] == e;
      }
    }
  }

  /** When the last task's emit goes through, the last event reports
      `processed == total`. */
  lemma ProgressEndsAtTotal(total: nat, userId: int, emitFault: nat -> bool)
    requires total > 0 && !emitFault(total - 1)
    ensures var r := ProgressEmissions(total, total, userId, emitFault);
            r != [] && r[|r| - 1].event == BulkProgress(total, total, userId)
  {
  }

  /** The message test in `validateUserAndTemplate`'s `catch`. */
  function ClassifyReferenceError(message: string): Failure {
    if Includes(message, "User with id") then AppError("Invalid user: " + message, 400)
    else if Includes(message, "Template with id") then
      AppError("Invalid template: " + message + ". Please create a template first or use an existing template ID.", 400)
    else PlainError(message)
  }

  /** `validateUserAndTemplate`: a missing user gives 400 "Invalid user: …"
      and, only when the user exists, a missing template gives 400
      "Invalid template: …". A lookup the driver fails is rethrown as it is,
      unless its own message happens to mention a user or template id.
      `lookups` are the errors of the two SELECTs. */
  function ValidateUserAndTemplate(repo: EmailRepository, userId: int, templateId: int, lookups: LookupFaults): (r: Outcome<Failure>)
    reads repo.db
    ensures r == Pass <==>
            lookups == NoLookupFaults && repo.db.UserExists(userId) && repo.db.TemplateExists(templateId)
    ensures lookups.user.None? && !repo.db.UserExists(userId) ==>
            r == Fail(AppError("Invalid user: " + UserMissing(userId).Message(), 400))
    ensures lookups.user.None? && repo.db.UserExists(userId) && lookups.template.None? && !repo.db.TemplateExists(templateId) ==>
            r == Fail(AppError("Invalid template: " + TemplateMissing(templateId).Message() +
                               ". Please create a template first or use an existing template ID.", 400))
    ensures lookups.user.Some? ==> r == Fail(ClassifyReferenceError(lookups.user.value.message))
    ensures lookups.user.None? && repo.db.UserExists(userId) && lookups.template.Some? ==>
            r == Fail(ClassifyReferenceError(lookups.template.value.message))
    ensures r.Fail? && r.error.PlainError? ==> lookups != NoLookupFaults
    ensures r.Fail? && r.error.AppError? ==> r.error.statusCode == 400
  {
    match repo.ValidateForeignKeys(userId, templateId, lookups)
    case Pass => Pass
    case Fail(e) =>
      if e.Driver? then Fail(ClassifyReferenceError(e.error.message))
      else
        ForeignKeyMessagesClassify(e);
        Fail(ClassifyReferenceError(e.Message()))
  }

  /** `getLogs`: the user's logs newest first, or 500 "Failed to fetch
      email logs" when the query throws (`readFault`). */
  function GetLogs(repo: EmailRepository, userId: int, readFault: bool): (r: Result<seq<EmailLog>, Failure>)
    reads repo.db
    requires repo.Valid()
    ensures readFault ==> r == Failure(AppError("Failed to fetch email logs", 500))
    ensures !readFault ==> r.Success?
    ensures !readFault ==>
              forall k :: 0 <= k < |r.value| ==> r.value[k] in repo.db.logs.Values && r.value[k].userId == userId
    ensures !readFault ==> forall id :: id in repo.db.logs && repo.db.logs[id].userId == userId ==> repo.db.logs[id] in r.value
    ensures !readFault ==> forall j, k :: 0 <= j < k < |r.value| ==> r.value[j].createdAt > r.value[k].createdAt
  {
    if readFault then Failure(AppError("Failed to fetch email logs", 500))
    else
      var logs := repo.GetLogsByUser(userId);
      assert forall k :: 0 <= k < |logs| ==> logs[k] == repo.db.logs[logs[k].id];
      Success(logs)
  }

  /** A freshly created log for `email`. */
  predicate NewLog(log: EmailLog, userId: int, email: string, templateId: int) {
    log.userId == userId && log.emailTo == email && log.templateId == templateId &&
    log.status == Pending && log.errorMessage.None?
  }

  /** The result of one task, given what the insert and the enqueue did. */
  predicate ResultFor(res: TaskResult, logId: Option<int>, email: string, userId: int, templateId: int,
                      insertFault: Option<DbError>, enqueueFault: Option<string>)
  {
    && (logId.Some? <==> insertFault.None?)
    && (insertFault.Some? ==> res == NotQueued(email, AttributeInsertError(insertFault.value, userId, templateId).Message()))
    && (insertFault.None? && enqueueFault.Some? ==> res == NotQueued(email, enqueueFault.value))
    && (insertFault.None? && enqueueFault.None? ==> res == Queued(Trim(email), logId.value))
  }

  /** The `try { getIO().to(room).emit(...) } catch {}` around each
      progress event: nothing is emitted when the server is not initialised
      or the emit throws, and the task goes on either way. */
  method EmitProgress(sockets: SocketServer, userId: int, processed: int, total: int, fails: bool)
    modifies sockets.Listeners()
    ensures sockets.io.Some? ==>
            sockets.io.value.emitted == old(sockets.io.value.emitted) +
              (if fails then [] else [Emission(Room(userId), "bulkEmailProgress", BulkProgress(processed, total, userId))])
  {
    var io := sockets.GetIO();
    if io.Success? {
      var _ := io.value.Emit(Room(userId), "bulkEmailProgress", BulkProgress(processed, total, userId), fails);
    }
  }

  /** Inside a task the user and the template exist, so a lookup of
      `createLog` that the driver fails ends as a failed INSERT does: the
      same attribution and no new row. A task's `insertFault` therefore
      stands for the error of whichever of `createLog`'s statements fails
      first. */
  lemma TaskLookupFaultIsInsertFault(repo: EmailRepository, userId: int, email: string, templateId: int, f: DbError)
    requires repo.db.UserExists(userId) && repo.db.TemplateExists(templateId) && Trim(email) != []
    ensures repo.CreateLogCheck(userId, email, templateId, NoLookupFaults) == Pass
    ensures repo.CreateLogCheck(userId, email, templateId, LookupFaults(Some(f), None)) == Fail(Driver(f))
    ensures repo.CreateLogCheck(userId, email, templateId, LookupFaults(None, Some(f))) == Fail(Driver(f))
    ensures CaughtByCreateLog(Driver(f), userId, templateId) == AttributeInsertError(f, userId, templateId)
  {
  }

  /** The body of one task up to the progress event: create the log for
      the trimmed address, then enqueue a job carrying its id; a failure of
      either is caught and reported with the untrimmed address. */
  method CreateAndEnqueue(repo: EmailRepository, queue: Queue,
                          userId: int, email: string, templateId: int, subject: string, body: string,
                          insertFault: Option<DbError>, enqueueFault: Option<string>)
    returns (res: TaskResult, ghost logId: Option<int>)
    requires repo.Valid()
    requires repo.db.UserExists(userId) && repo.db.TemplateExists(templateId)
    requires Trim(email) != []
    modifies repo.db, queue
    ensures repo.Valid()
    ensures repo.db.users == old(repo.db.users) && repo.db.templates == old(repo.db.templates)
    ensures ResultFor(res, logId, email, userId, templateId, insertFault, enqueueFault)
    ensures logId.None? ==> repo.db.logs == old(repo.db.logs) && repo.db.nextLogId == old(repo.db.nextLogId)
    ensures logId.Some? ==>
            && logId.value == old(repo.db.nextLogId)
            && logId.value !in old(repo.db.logs)
            && logId.value in repo.db.logs
            && repo.db.logs == old(repo.db.logs)[logId.value := repo.db.logs[logId.value]]
            && NewLog(repo.db.logs[logId.value], userId, Trim(email), templateId)
            && repo.db.nextLogId == old(repo.db.nextLogId) + 1
    ensures queue.jobs == old(queue.jobs) + JobsOf([res], subject, body, userId)
  {
    var trimmed := Trim(email);
    TrimIdempotent(email);
    var created := repo.CreateLog(userId, trimmed, templateId, NoLookupFaults, insertFault);
    if created.Success? {
      logId := Some(created.value.id);
      var added := queue.Add(Job(created.value.id, trimmed, subject, body, userId), enqueueFault);
      if added.Pass? {
        res := Queued(trimmed, created.value.id);
      } else {
        res := NotQueued(email, added.error);
      }
    } else {
      logId := None;
      res := NotQueued(email, created.error.Message());
    }
    assert [res][..0] == [];
  }

  /** How the log table after the first `|logIds|` tasks relates to the
      table `logs0` before them: task `k` created the log `logIds[k]` (if
      any), a new `pending` row for the trimmed address under an id not used
      before; ids grow with `k`; no other row appears and no old row
      changes. */
  ghost predicate Tracked(logs0: map<int, EmailLog>, logs: map<int, EmailLog>, next: int,
                          logIds: seq<Option<int>>, valid: seq<string>, userId: int, templateId: int)
  {
    && |logIds| <= |valid|
    && CreatedLogs(logs0, logs, next, logIds, valid, userId, templateId)
    && IdsIncrease(logIds)
    && (forall id :: id in logs <==> id in logs0 || Some(id) in logIds)
    && (forall id :: id in logs0 ==> id < next && logs[id] == logs0[id])
  }

  ghost predicate CreatedLogs(logs0: map<int, EmailLog>, logs: map<int, EmailLog>, next: int,
                              logIds: seq<Option<int>>, valid: seq<string>, userId: int, templateId: int)
    requires |logIds| <= |valid|
  {
    forall k :: 0 <= k < |logIds| && logIds[k].Some? ==>
      && logIds[k].value !in logs0
      && logIds[k].value in logs
      && logIds[k].value < next
      && NewLog(logs[logIds[k].value], userId, Trim(valid[k]), templateId)
  }

  ghost predicate IdsIncrease(logIds: seq<Option<int>>) {
    forall j, k :: 0 <= j < k < |logIds| && logIds[j].Some? && logIds[k].Some? ==>
      logIds[j].value < logIds[k].value
  }

  lemma TrackedStep(logs0: map<int, EmailLog>, logs: map<int, EmailLog>, logs': map<int, EmailLog>,
                    next: int, next': int, logIds: seq<Option<int>>, logId: Option<int>,
                    valid: seq<string>, userId: int, templateId: int)
    requires Tracked(logs0, logs, next, logIds, valid, userId, templateId)
    requires |logIds| < |valid|
    requires logId.None? ==> logs' == logs && next' == next
    requires logId.Some? ==>
             && logId.value == next && next !in logs && next in logs'
             && logs' == logs[next := logs'[next]]
             && NewLog(logs'[next], userId, Trim(valid[|logIds|]), templateId)
             && next' == next + 1
    ensures Tracked(logs0, logs', next', logIds + [logId], valid, userId, templateId)
  {
    if logId.None? {
      TrackedSkip(logs0, logs, next, logIds, valid, userId, templateId);
    } else {
      TrackedAdd(logs0, logs, logs', next, logIds, valid, userId, templateId);
    }
  }

  /** A task that created no log keeps the relation. */
  lemma TrackedSkip(logs0: map<int, EmailLog>, logs: map<int, EmailLog>, next: int,
                    logIds: seq<Option<int>>, valid: seq<string>, userId: int, templateId: int)
    requires Tracked(logs0, logs, next, logIds, valid, userId, templateId)
    requires |logIds| < |valid|
    ensures Tracked(logs0, logs, next, logIds + [None], valid, userId, templateId)
  {
    var ids := logIds + [None];
    assert forall k :: 0 <= k < |logIds| ==> ids[k] == logIds[k];
    assert forall id :: Some(id) in ids <==> Some(id) in logIds;
  }

  /** A task that created the log `next` keeps the relation. */
  lemma TrackedAdd(logs0: map<int, EmailLog>, logs: map<int, EmailLog>, logs': map<int, EmailLog>,
                   next: int, logIds: seq<Option<int>>, valid: seq<string>, userId: int, templateId: int)
    requires Tracked(logs0, logs, next, logIds, valid, userId, templateId)
    requires |logIds| < |valid|
    requires next !in logs && next in logs' && logs' == logs[next := logs'[next]]
    requires NewLog(logs'[next], userId, Trim(valid[|logIds|]), templateId)
    ensures Tracked(logs0, logs', next + 1, logIds + [Some(next)], valid, userId, templateId)
  {
    var ids := logIds + [Some(next)];
    assert forall k :: 0 <= k < |logIds| ==> ids[k] == logIds[k];
    CreatedLogsAdd(logs0, logs, logs', next, logIds, valid, userId, templateId);
    IdsIncreaseAdd(logIds, next);
    forall id | id in logs' ensures id in logs0 || Some(id) in ids {
      if id != next {
        assert id in logs;
      }
    }
  }

  lemma CreatedLogsAdd(logs0: map<int, EmailLog>, logs: map<int, EmailLog>, logs': map<int, EmailLog>,
                       next: int, logIds: seq<Option<int>>, valid: seq<string>, userId: int, templateId: int)
    requires |logIds| < |valid|
    requires CreatedLogs(logs0, logs, next, logIds, valid, userId, templateId)
    requires forall id :: id in logs0 ==> id < next
    requires next !in logs && next in logs' && logs' == logs[next := logs'[next]]
    requires NewLog(logs'[next], userId, Trim(valid[|logIds|]), templateId)
    ensures CreatedLogs(logs0, logs', next + 1, logIds + [Some(next)], valid, userId, templateId)
  {
    var ids := logIds + [Some(next)];
    forall k | 0 <= k < |ids| && ids[k].Some?
      ensures && ids[k].value !in logs0 && ids[k].value in logs' && ids[k].value < next + 1
              && NewLog(logs'[ids[k].value], userId, Trim(valid[k]), templateId)
    {
      if k < |logIds| {
        assert ids[k] == logIds[k];
        assert logs'[ids[k].value] == logs[ids[k].value];
      }
    }
  }

  lemma IdsIncreaseAdd(logIds: seq<Option<int>>, next: int)
    requires IdsIncrease(logIds)
    requires forall k :: 0 <= k < |logIds| && logIds[k].Some? ==> logIds[k].value < next
    ensures IdsIncrease(logIds + [Some(next)])
  {
    var ids := logIds + [Some(next)];
    assert forall k :: 0 <= k < |logIds| ==> ids[k] == logIds[k];
  }

  /** Task `k`'s result is the one its faults call for, for every task
      run so far. */
  predicate ResultsFor(results: seq<TaskResult>, logIds: seq<Option<int>>, valid: seq<string>,
                       userId: int, templateId: int,
                       insertFault: nat -> Option<DbError>, enqueueFault: nat -> Option<string>)
  {
    && |results| == |logIds| <= |valid|
    && forall k :: 0 <= k < |results| ==>
         ResultFor(results[k], logIds[k], valid[k], userId, templateId, insertFault(k), enqueueFault(k))
  }

  lemma ResultsForStep(results: seq<TaskResult>, logIds: seq<Option<int>>, valid: seq<string>,
                       userId: int, templateId: int,
                       insertFault: nat -> Option<DbError>, enqueueFault: nat -> Option<string>,
                       res: TaskResult, logId: Option<int>)
    requires ResultsFor(results, logIds, valid, userId, templateId, insertFault, enqueueFault)
    requires |results| < |valid|
    requires ResultFor(res, logId, valid[|results|], userId, templateId,
                       insertFault(|results|), enqueueFault(|results|))
    ensures ResultsFor(results + [res], logIds + [logId], valid, userId, templateId, insertFault, enqueueFault)
  {
    assert forall k :: 0 <= k < |results| ==>
             (results + [res])[k] == results[k] && (logIds + [logId])[k] == logIds[k];
  }

  /** The database and queue half of task `i`: `CreateAndEnqueue` for
      `valid[i]`, as a step from the tasks before it to the tasks up to it. */
  method RecordTask(repo: EmailRepository, queue: Queue,
                    userId: int, valid: seq<string>, templateId: int, subject: string, body: string,
                    insertFault: nat -> Option<DbError>, enqueueFault: nat -> Option<string>,
                    i: nat, results: seq<TaskResult>, ghost logIds: seq<Option<int>>,
                    ghost logs0: map<int, EmailLog>, ghost jobs0: seq<Job>)
    returns (results': seq<TaskResult>, ghost logIds': seq<Option<int>>)
    requires repo.Valid()
    requires repo.db.UserExists(userId) && repo.db.TemplateExists(templateId)
    requires i < |valid| && Trim(valid[i]) != []
    requires |results| == i
    requires ResultsFor(results, logIds, valid, userId, templateId, insertFault, enqueueFault)
    requires Tracked(logs0, repo.db.logs, repo.db.nextLogId, logIds, valid, userId, templateId)
    requires queue.jobs == jobs0 + JobsOf(results, subject, body, userId)
    modifies repo.db, queue
    ensures repo.Valid()
    ensures repo.db.users == old(repo.db.users) && repo.db.templates == old(repo.db.templates)
    ensures |results'| == i + 1
    ensures ResultsFor(results', logIds', valid, userId, templateId, insertFault, enqueueFault)
    ensures Tracked(logs0, repo.db.logs, repo.db.nextLogId, logIds', valid, userId, templateId)
    ensures queue.jobs == jobs0 + JobsOf(results', subject, body, userId)
  {
    ghost var logsBefore := repo.db.logs;
    ghost var nextBefore := repo.db.nextLogId;
    var res;
    ghost var logId;
    res, logId := CreateAndEnqueue(repo, queue, userId, valid[i], templateId, subject, body,
                                   insertFault(i), enqueueFault(i));
    TrackedStep(logs0, logsBefore, repo.db.logs, nextBefore, repo.db.nextLogId, logIds, logId,
                valid, userId, templateId);
    JobsOfSnoc(results, res, subject, body, userId);
    ResultsForStep(results, logIds, valid, userId, templateId, insertFault, enqueueFault, res, logId);
    results' := results + [res];
    logIds' := logIds + [logId];
  }

  /** One per-recipient task of `queueBulkEmails`, the `i`-th of the pool:
      create the log and enqueue the job for `valid[i]`, then report
      `processed == i + 1` of `|valid|`. Stated as the step from the tasks
      before it to the tasks up to it. */
  method RunTask(repo: EmailRepository, queue: Queue, sockets: SocketServer,
                 userId: int, valid: seq<string>, templateId: int, subject: string, body: string,
                 insertFault: nat -> Option<DbError>, enqueueFault: nat -> Option<string>,
                 emitFault: nat -> bool,
                 i: nat, results: seq<TaskResult>, ghost logIds: seq<Option<int>>,
                 ghost logs0: map<int, EmailLog>, ghost jobs0: seq<Job>, ghost emitted0: seq<Emission>)
    returns (results': seq<TaskResult>, ghost logIds': seq<Option<int>>)
    requires repo.Valid()
    requires repo.db.UserExists(userId) && repo.db.TemplateExists(templateId)
    requires i < |valid| && Trim(valid[i]) != []
    requires |results| == i
    requires ResultsFor(results, logIds, valid, userId, templateId, insertFault, enqueueFault)
    requires Tracked(logs0, repo.db.logs, repo.db.nextLogId, logIds, valid, userId, templateId)
    requires queue.jobs == jobs0 + JobsOf(results, subject, body, userId)
    requires sockets.io.Some? ==>
               sockets.io.value.emitted == emitted0 + ProgressEmissions(i, |valid|, userId, emitFault)
    modifies repo.db, queue, sockets.Listeners()
    ensures repo.Valid()
    ensures repo.db.users == old(repo.db.users) && repo.db.templates == old(repo.db.templates)
    ensures |results'| == i + 1
    ensures ResultsFor(results', logIds', valid, userId, templateId, insertFault, enqueueFault)
    ensures Tracked(logs0, repo.db.logs, repo.db.nextLogId, logIds', valid, userId, templateId)
    ensures queue.jobs == jobs0 + JobsOf(results', subject, body, userId)
    ensures sockets.io == old(sockets.io)
    ensures sockets.io.Some? ==>
              sockets.io.value.emitted == emitted0 + ProgressEmissions(i + 1, |valid|, userId, emitFault)
  {
    results', logIds' := RecordTask(repo, queue, userId, valid, templateId, subject, body,
                                    insertFault, enqueueFault, i, results, logIds, logs0, jobs0);
    EmitProgress(sockets, userId, i + 1, |valid|, emitFault(i));
  }

  /** The pool: every task runs, in order, and `Promise.all` collects
      their results. */
  method RunTasks(repo: EmailRepository, queue: Queue, sockets: SocketServer,
                  userId: int, valid: seq<string>, templateId: int, subject: string, body: string,
                  insertFault: nat -> Option<DbError>, enqueueFault: nat -> Option<string>,
                  emitFault: nat -> bool)
    returns (results: seq<TaskResult>, ghost logIds: seq<Option<int>>)
    requires repo.Valid()
    requires repo.db.UserExists(userId) && repo.db.TemplateExists(templateId)
    requires forall k :: 0 <= k < |valid| ==> Trim(valid[k]) != []
    modifies repo.db, queue, sockets.Listeners()
    ensures repo.Valid()
    ensures repo.db.users == old(repo.db.users) && repo.db.templates == old(repo.db.templates)
    ensures |results| == |valid|
    ensures ResultsFor(results, logIds, valid, userId, templateId, insertFault, enqueueFault)
    ensures Tracked(old(repo.db.logs), repo.db.logs, repo.db.nextLogId, logIds, valid, userId, templateId)
    ensures queue.jobs == old(queue.jobs) + JobsOf(results, subject, body, userId)
    ensures sockets.io == old(sockets.io)
    ensures sockets.io.Some? ==>
              sockets.io.value.emitted == old(sockets.io.value.emitted) +
                ProgressEmissions(|valid|, |valid|, userId, emitFault)
  {
    results := [];
    logIds := [];
    ghost var logs0 := repo.db.logs;
    ghost var jobs0 := queue.jobs;
    ghost var emitted0 := if sockets.io.Some? then sockets.io.value.emitted else [];
    assert forall id :: id in logs0 ==> id < repo.db.nextLogId by {
      assert forall id :: id in logs0 ==> repo.db.LogValid(logs0[id], id);
    }
    var i := 0;
    while i < |valid|
      invariant 0 <= i <= |valid|
      invariant repo.Valid()
      invariant repo.db.users == old(repo.db.users) && repo.db.templates == old(repo.db.templates)
      invariant |results| == i
      invariant ResultsFor(results, logIds, valid, userId, templateId, insertFault, enqueueFault)
      invariant Tracked(logs0, repo.db.logs, repo.db.nextLogId, logIds, valid, userId, templateId)
      invariant queue.jobs == jobs0 + JobsOf(results, subject, body, userId)
      invariant sockets.io == old(sockets.io)
      invariant sockets.io.Some? ==>
                  sockets.io.value.emitted == emitted0 + ProgressEmissions(i, |valid|, userId, emitFault)
    {
      results, logIds := RunTask(repo, queue, sockets, userId, valid, templateId, subject, body,
                                 insertFault, enqueueFault, emitFault, i, results, logIds,
                                 logs0, jobs0, emitted0);
      i := i + 1;
    }
  }

  /** `queueBulkEmails`. `lookups` are the errors of the reference check's
      two SELECTs. The other faults are indexed by the position of the
      entry in the valid list: the error `createLog` raises (see
      `TaskLookupFaultIsInsertFault`), the error the queue raises, and
      whether the progress emit throws. */
  method QueueBulkEmails(repo: EmailRepository, queue: Queue, sockets: SocketServer,
                         userId: int, emails: seq<string>, templateId: int, subject: string, body: string,
                         isEmail: string -> bool, lookups: LookupFaults,
                         insertFault: nat -> Option<DbError>, enqueueFault: nat -> Option<string>,
                         emitFault: nat -> bool)
    returns (r: Result<BulkSummary, Failure>, results: seq<TaskResult>, ghost logIds: seq<Option<int>>)
    requires repo.Valid()
    modifies repo.db, queue, sockets.Listeners()
    ensures repo.Valid()
    ensures repo.db.users == old(repo.db.users) && repo.db.templates == old(repo.db.templates)
    ensures emails == [] ==> r == Failure(AppError("No emails provided", 400))
    ensures emails != [] && old(ValidateUserAndTemplate(repo, userId, templateId, lookups)).Fail? ==>
            r == Failure(old(ValidateUserAndTemplate(repo, userId, templateId, lookups)).error)
    ensures emails != [] && old(ValidateUserAndTemplate(repo, userId, templateId, lookups)) == Pass &&
            ValidEmails(emails, isEmail) == [] ==>
            r == Failure(AppError("No valid email addresses found", 400))
    ensures r.Success? <==>
            emails != [] && old(ValidateUserAndTemplate(repo, userId, templateId, lookups)) == Pass &&
            ValidEmails(emails, isEmail) != []
    ensures r.Failure? ==>
            && (r.error.AppError? ==> r.error.statusCode == 400)
            && (r.error.PlainError? ==> lookups != NoLookupFaults)
            && results == []
            && repo.db.logs == old(repo.db.logs)
            && queue.jobs == old(queue.jobs)
            && (sockets.io.Some? ==> sockets.io.value.emitted == old(sockets.io.value.emitted))
    ensures r.Success? ==>
            var valid := ValidEmails(emails, isEmail);
            && r.value == BulkSummary(|emails|, |valid|, InvalidEmails(emails, isEmail),
                                      CountQueued(results), CountNotQueued(results))
            && |results| == |valid| && |logIds| == |valid|
            && (forall k :: 0 <= k < |valid| ==>
                  ResultFor(results[k], logIds[k], valid[k], userId, templateId, insertFault(k), enqueueFault(k)))
            && Tracked(old(repo.db.logs), repo.db.logs, repo.db.nextLogId, logIds, valid, userId, templateId)
            && queue.jobs == old(queue.jobs) + JobsOf(results, subject, body, userId)
            && (sockets.io.Some? ==>
                  sockets.io.value.emitted == old(sockets.io.value.emitted) +
                    ProgressEmissions(|valid|, |valid|, userId, emitFault))
  {
    results := [];
    logIds := [];
    if emails == [] {
      return Failure(AppError("No emails provided", 400)), results, logIds;
    }
    var checked := ValidateUserAndTemplate(repo, userId, templateId, lookups);
    if checked.Fail? {
      return Failure(checked.error), results, logIds;
    }
    var valid := ValidEmails(emails, isEmail);
    var invalid := InvalidEmails(emails, isEmail);
    if |valid| == 0 {
      return Failure(AppError("No valid email addresses found", 400)), results, logIds;
    }
    results, logIds := RunTasks(repo, queue, sockets, userId, valid, templateId, subject, body,
                                insertFault, enqueueFault, emitFault);
    r := Success(BulkSummary(|emails|, |valid|, invalid, CountQueued(results), CountNotQueued(results)));
  }
}
