/** The PostgreSQL tables the repositories query, held in memory: `users`
    and `email_templates` as sequences whose row ids are positions plus one,
    `email_logs` as a map from id to row with the next id to hand out, and a
    logical clock that stands for `NOW()`. */
module Database {
  import opened Wrappers
  import opened Records

  class Db {
    var users: seq<User>
    var templates: seq<Template>
    var logs: map<int, EmailLog>
    var nextLogId: int
    var clock: nat

    /** Serial ids; every log's timestamps are in the past; a log created
        later has a later `created_at`; every log points at an existing user
        and template. */
    ghost predicate Valid()
      reads this
    {
      && (forall i :: 0 <= i < |users| ==> users[i].id == i + 1)
      && (forall i :: 0 <= i < |templates| ==> templates[i].id == i + 1)
      && nextLogId >= 1
      && (forall id :: id in logs ==> LogValid(logs[id], id))
      && (forall i, j :: i in logs && j in logs && i < j ==> logs[i].createdAt < logs[j].createdAt)
    }

    ghost predicate LogValid(log: EmailLog, id: int)
      reads this
    {
      && log.id == id
      && 1 <= id < nextLogId
      && log.createdAt <= log.updatedAt <= clock
      && 1 <= log.userId <= |users|
      && 1 <= log.templateId <= |templates|
    }

    constructor (users: seq<User>, templates: seq<Template>)
      requires forall i :: 0 <= i < |users| ==> users[i].id == i + 1
      requires forall i :: 0 <= i < |templates| ==> templates[i].id == i + 1
      ensures Valid()
      ensures this.users == users && this.templates == templates && logs == map[]
    {
      this.users := users;
      this.templates := templates;
      logs := map[];
      nextLogId := 1;
      clock := 0;
    }

    /** INSERT INTO email_logs: the row takes the next id and the next
        tick of the clock as both of its timestamps. */
    method InsertLog(userId: int, emailTo: string, templateId: int) returns (log: EmailLog)
      requires Valid()
      requires UserExists(userId) && TemplateExists(templateId)
      modifies this
      ensures Valid()
      ensures users == old(users) && templates == old(templates)
      ensures old(nextLogId) !in old(logs)
      ensures log == EmailLog(old(nextLogId), userId, emailTo, templateId, Pending, None, old(clock) + 1, old(clock) + 1)
      ensures logs == old(logs)[log.id := log]
      ensures nextLogId == old(nextLogId) + 1 && clock == old(clock) + 1
    {
      var now := clock + 1;
      log := EmailLog(nextLogId, userId, emailTo, templateId, Pending, None, now, now);
      ghost var before := logs;
      logs := logs[log.id := log];
      nextLogId := nextLogId + 1;
      clock := now;
      assert forall id :: id in before ==> before[id].createdAt <= before[id].updatedAt < now;
      assert forall id :: id in logs ==> id == log.id || logs[id] == before[id];
    }

    predicate UserExists(id: int)
      reads this
    {
      1 <= id <= |users|
    }

    predicate TemplateExists(id: int)
      reads this
    {
      1 <= id <= |templates|
    }
  }
}
