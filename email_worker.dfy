/** The job handler of `startEmailWorker`: send the message, record the
    outcome in the job's log, and tell the user's room. Any error in the
    `try` block, whether from sending, from the 'sent' write or from that
    emit, ends in a 'failed' write and a rethrow. */
module EmailWorker {
  import opened Wrappers
  import opened Strings
  import opened Records
  import opened Database
  import opened EmailRepository
  import opened Sockets
  import opened EmailService

  /** What the outside world does while one job runs: the error
      `sendMail` throws, the query errors of the two status writes, and the
      errors the two emits throw. */
  datatype Faults = Faults(
    sendError: Option<string>,
    sentWriteFault: Option<DbError>,
    sentEmitError: Option<string>,
    failedWriteFault: Option<DbError>,
    failedEmitError: Option<string>)

  function StatusEvent(job: Job, status: string, error: Option<string>): Emission {
    Emission(Room(job.userId), "emailStatusUpdate", StatusUpdate(job.logId, status, job.email, error))
  }

  /** Whether the `try` block completes, given the log table and whether
      the socket server is initialised. */
  predicate TryCompletes(job: Job, logs: map<int, EmailLog>, ioReady: bool, f: Faults) {
    f.sendError.None? && f.sentWriteFault.None? && job.logId in logs && !(ioReady && f.sentEmitError.Some?)
  }

  /** The message of the error the `catch` receives. */
  function CaughtMessage(job: Job, logs: map<int, EmailLog>, ioReady: bool, f: Faults): (m: string)
    requires !TryCompletes(job, logs, ioReady, f)
    ensures f.sendError.Some? ==> m == f.sendError.value
  {
    if f.sendError.Some? then f.sendError.value
    else if f.sentWriteFault.Some? then f.sentWriteFault.value.message
    else if job.logId !in logs then LogNotFound(job.logId).Message()
    else f.sentEmitError.value
  }

  /** The log table after one successful status write. */
  function Stamp(logs: map<int, EmailLog>, id: int, status: string, error: Option<string>, now: nat): map<int, EmailLog>
    requires id in logs
  {
    logs[id := logs[id].(status := status, errorMessage := error, updatedAt := now)]
  }

  lemma StatusesAreTrimmed()
    ensures Trim(Sent) == Sent && Trim(Failed) == Failed
  {
    assert Sent[0] == 's' && Sent[|Sent| - 1] == 't';
    assert Failed[0] == 'f' && Failed[|Failed| - 1] == 'd';
    TrimmedIsFixed(Sent);
    TrimmedIsFixed(Failed);
  }

  /** Emits `event` when the server is initialised; `error` is what the
      emit throws, if it does. */
  method EmitStatus(sockets: SocketServer, event: Emission, error: Option<string>) returns (thrown: Option<string>)
    modifies sockets.Listeners()
    ensures sockets.io == old(sockets.io)
    ensures thrown.Some? <==> sockets.io.Some? && error.Some?
    ensures thrown.Some? ==> thrown == error
    ensures sockets.io.Some? ==>
            sockets.io.value.emitted == old(sockets.io.value.emitted) + (if error.Some? then [] else [event])
  {
    var io := sockets.GetIO();
    thrown := None;
    if io.Success? {
      var ok := io.value.Emit(event.room, event.name, event.event, error.Some?);
      if !ok {
        thrown := error;
      }
    }
  }

  /** The handler. The result is the error it rethrows, or `Pass`. */
  method HandleJob(repo: EmailRepository, sockets: SocketServer, job: Job, f: Faults)
    returns (r: Outcome<string>)
    requires repo.Valid()
    modifies repo.db, sockets.Listeners()
    ensures repo.Valid()
    ensures sockets.io == old(sockets.io)
    // success: the log says 'sent' with no error, then the event follows
    ensures r == Pass <==> TryCompletes(job, old(repo.db.logs), sockets.io.Some?, f)
    ensures r == Pass ==>
            && repo.db.logs == old(repo.db.logs)[job.logId := old(repo.db.logs)[job.logId].(
                 status := Sent, errorMessage := None, updatedAt := old(repo.db.clock) + 1)]
            && (sockets.io.Some? ==>
                  sockets.io.value.emitted == old(sockets.io.value.emitted) + [StatusEvent(job, Sent, None)])
    // failure: the caught error is recorded as 'failed' and rethrown
    ensures r.Fail? ==>
            var m := CaughtMessage(job, old(repo.db.logs), sockets.io.Some?, f);
            && (f.failedWriteFault.None? && job.logId in old(repo.db.logs) ==>
                  && job.logId in repo.db.logs
                  && repo.db.logs[job.logId].status == Failed
                  && repo.db.logs[job.logId].errorMessage == Some(m)
                  && repo.db.logs.Keys == old(repo.db.logs).Keys
                  && (forall id :: id in repo.db.logs && id != job.logId ==> repo.db.logs[id] == old(repo.db.logs)[id])
                  && r == Fail(if sockets.io.Some? && f.failedEmitError.Some? then f.failedEmitError.value else m)
                  && (sockets.io.Some? ==>
                        sockets.io.value.emitted == old(sockets.io.value.emitted) +
                          (if f.failedEmitError.Some? then [] else [StatusEvent(job, Failed, Some(m))])))
            && (f.failedWriteFault.Some? ==>
                  && r == Fail(f.failedWriteFault.value.message)
                  && (sockets.io.Some? ==> sockets.io.value.emitted == old(sockets.io.value.emitted)))
            && (job.logId !in old(repo.db.logs) ==>
                  && r == Fail(if f.failedWriteFault.Some? then f.failedWriteFault.value.message
                               else LogNotFound(job.logId).Message())
                  && repo.db.logs == old(repo.db.logs)
                  && (sockets.io.Some? ==> sockets.io.value.emitted == old(sockets.io.value.emitted)))
    // only this job's row changes, and only to 'sent' or 'failed'
    ensures repo.db.logs.Keys == old(repo.db.logs).Keys
    ensures forall id :: id in repo.db.logs ==>
              repo.db.logs[id] == old(repo.db.logs)[id] ||
              (id == job.logId && repo.db.logs[id].status in {Sent, Failed})
    // an event is emitted only after the status it reports is stored
    ensures sockets.io.Some? && sockets.io.value.emitted != old(sockets.io.value.emitted) ==>
              var e := sockets.io.value.emitted[|sockets.io.value.emitted| - 1];
              && |sockets.io.value.emitted| == |old(sockets.io.value.emitted)| + 1
              && e.event.StatusUpdate? && job.logId in repo.db.logs
              && e.event.status == repo.db.logs[job.logId].status
  {
    var caught := TrySend(repo, sockets, job, f);
    if caught.None? {
      return Pass;
    }
    r := RecordFailure(repo, sockets, job, caught.value, f);
  }

  /** The `try` block: send, store 'sent', emit it. The result is the
      message of the error it throws. Only a completed block leaves an
      event; the 'sent' write may stand even when the emit after it throws. */
  method TrySend(repo: EmailRepository, sockets: SocketServer, job: Job, f: Faults)
    returns (caught: Option<string>)
    requires repo.Valid()
    modifies repo.db, sockets.Listeners()
    ensures repo.Valid()
    ensures sockets.io == old(sockets.io)
    ensures caught.None? <==> TryCompletes(job, old(repo.db.logs), sockets.io.Some?, f)
    ensures caught.Some? ==> caught.value == CaughtMessage(job, old(repo.db.logs), sockets.io.Some?, f)
    ensures caught.None? ==>
              job.logId in old(repo.db.logs) &&
              repo.db.logs == Stamp(old(repo.db.logs), job.logId, Sent, None, old(repo.db.clock) + 1)
    ensures caught.Some? ==>
              repo.db.logs == old(repo.db.logs) ||
              (job.logId in old(repo.db.logs) &&
               repo.db.logs == Stamp(old(repo.db.logs), job.logId, Sent, None, old(repo.db.clock) + 1))
    ensures sockets.io.Some? ==>
            sockets.io.value.emitted == old(sockets.io.value.emitted) +
              (if caught.None? then [StatusEvent(job, Sent, None)] else [])
  {
    StatusesAreTrimmed();
    if f.sendError.Some? {
      return f.sendError;
    }
    var written := repo.UpdateLogStatus(job.logId, Sent, None, f.sentWriteFault);
    if written.Failure? {
      return Some(written.error.Message());
    }
    caught := EmitStatus(sockets, StatusEvent(job, Sent, None), f.sentEmitError);
  }

  /** The `catch` block: store 'failed' with the message, emit it, and
      rethrow; an error on the way is what is thrown instead. */
  method RecordFailure(repo: EmailRepository, sockets: SocketServer, job: Job, m: string, f: Faults)
    returns (r: Outcome<string>)
    requires repo.Valid()
    modifies repo.db, sockets.Listeners()
    ensures repo.Valid()
    ensures sockets.io == old(sockets.io)
    ensures r.Fail?
    ensures f.failedWriteFault.None? && job.logId in old(repo.db.logs) ==>
            && repo.db.logs == Stamp(old(repo.db.logs), job.logId, Failed, Some(m), old(repo.db.clock) + 1)
            && r == Fail(if sockets.io.Some? && f.failedEmitError.Some? then f.failedEmitError.value else m)
            && (sockets.io.Some? ==>
                  sockets.io.value.emitted == old(sockets.io.value.emitted) +
                    (if f.failedEmitError.Some? then [] else [StatusEvent(job, Failed, Some(m))]))
    ensures f.failedWriteFault.Some? || job.logId !in old(repo.db.logs) ==>
            && repo.db.logs == old(repo.db.logs)
            && r == Fail(if f.failedWriteFault.Some? then f.failedWriteFault.value.message
                         else LogNotFound(job.logId).Message())
            && (sockets.io.Some? ==> sockets.io.value.emitted == old(sockets.io.value.emitted))
  {
    StatusesAreTrimmed();
    var failed := repo.UpdateLogStatus(job.logId, Failed, Some(m), f.failedWriteFault);
    if failed.Failure? {
      return Fail(failed.error.Message());
    }
    var thrown := EmitStatus(sockets, StatusEvent(job, Failed, Some(m)), f.failedEmitError);
    if thrown.Some? {
      return Fail(thrown.value);
    }
    return Fail(m);
  }
}
