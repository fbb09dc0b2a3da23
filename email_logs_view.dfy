/** The live log list: status events patch the matching entries in place,
    progress events for the signed-in user drive a progress toast and a
    refetch once the batch is done, and each entry's badge, icon and
    extra lines follow from its fields. Timestamps are ticks of a logical
    clock; `now` stands for `new Date()`. */
module EmailLogsView {
  import opened Wrappers
  import opened Seqs
  import opened Records

  /** `handleEmailStatusUpdate`'s `map`: the entries with that id take
      the new status and time; everything else stays. */
  function ApplyStatusUpdate(logs: seq<EmailLog>, logId: int, status: string, now: nat): (r: seq<EmailLog>)
    ensures |r| == |logs|
    ensures forall k :: 0 <= k < |logs| ==>
              r[k] == if logs[k].id == logId then logs[k].(status := status, updatedAt := now) else logs[k]
  {
    Map(logs, (log: EmailLog) => if log.id == logId then log.(status := status, updatedAt := now) else log)
  }

  /** An event for an id the list does not hold changes nothing. */
  lemma UpdateOfAbsentId(logs: seq<EmailLog>, logId: int, status: string, now: nat)
    requires forall k :: 0 <= k < |logs| ==> logs[k].id != logId
    ensures ApplyStatusUpdate(logs, logId, status, now) == logs
  {
  }

  /** The same event delivered twice leaves the list as one delivery does. */
  lemma UpdateIdempotent(logs: seq<EmailLog>, logId: int, status: string, now: nat)
    ensures ApplyStatusUpdate(ApplyStatusUpdate(logs, logId, status, now), logId, status, now) ==
            ApplyStatusUpdate(logs, logId, status, now)
  {
  }

  /** Events for different logs can arrive in either order. */
  lemma UpdatesCommute(logs: seq<EmailLog>, a: int, sa: string, b: int, sb: string, now: nat)
    requires a != b
    ensures ApplyStatusUpdate(ApplyStatusUpdate(logs, a, sa, now), b, sb, now) ==
            ApplyStatusUpdate(ApplyStatusUpdate(logs, b, sb, now), a, sa, now)
  {
  }

  /** The event does not carry the error text: an entry that failed and
      then reports 'sent' still shows its old error until the list is
      fetched again. */
  lemma ErrorOutlivesSentEvent(log: EmailLog, now: nat)
    requires log.errorMessage == Some("timeout")
    ensures var r := ApplyStatusUpdate([log], log.id, Sent, now);
            r[0].status == Sent && ShowsError(r[0])
  {
  }

  datatype Variant = SuccessBadge | ErrorBadge | WarningBadge
  datatype Icon = CheckCircle | XCircle | Clock

  /** `getStatusVariant`. */
  function StatusVariant(status: string): (v: Variant)
    ensures v == SuccessBadge <==> status == Sent
    ensures v == ErrorBadge <==> status == Failed
  {
    if status == Sent then SuccessBadge else if status == Failed then ErrorBadge else WarningBadge
  }

  /** `getStatusIcon`. */
  function StatusIcon(status: string): (i: Icon)
    ensures i == CheckCircle <==> status == Sent
    ensures i == XCircle <==> status == Failed
  {
    if status == Sent then CheckCircle else if status == Failed then XCircle else Clock
  }

  /** The icon always goes with the badge: green tick with success, red
      cross with error, clock with anything else. */
  lemma IconMatchesVariant(status: string)
    ensures StatusIcon(status) == match StatusVariant(status)
                                  case SuccessBadge => CheckCircle
                                  case ErrorBadge => XCircle
                                  case WarningBadge => Clock
  {
  }

  /** The "Updated:" line: failed entries whose update time differs from
      their creation time. */
  predicate ShowsUpdated(log: EmailLog) {
    log.status == Failed && log.updatedAt != log.createdAt
  }

  /** The error box: a non-empty `error_message`. */
  predicate ShowsError(log: EmailLog) {
    log.errorMessage.Some? && log.errorMessage.value != []
  }

  /** A freshly created entry shows neither extra line, and an entry with
      the "Updated:" line has the error badge. */
  lemma DisplayConditions(log: EmailLog)
    ensures log.status == Pending && log.errorMessage.None? ==> !ShowsUpdated(log) && !ShowsError(log)
    ensures ShowsUpdated(log) ==> StatusVariant(log.status) == ErrorBadge
  {
  }

  /** The list's state. `progress` is the visible progress toast. */
  class LogList {
    var logs: seq<EmailLog>
    var progress: Option<(int, int)>

    constructor ()
      ensures logs == [] && progress.None?
    {
      logs := [];
      progress := None;
    }

    method StatusUpdated(logId: int, status: string, now: nat)
      modifies this
      ensures logs == ApplyStatusUpdate(old(logs), logId, status, now)
      ensures progress == old(progress)
    {
      logs := ApplyStatusUpdate(logs, logId, status, now);
    }

    /** `handleBulkEmailProgress`: an event for another user is ignored;
        otherwise the toast shows the counts, and once `processed` equals
        `total` it is dismissed and the list is fetched again (`fetched`
        is None when that fetch fails). */
    method ProgressReceived(processed: int, total: int, userId: int, me: int, fetched: Option<seq<EmailLog>>)
      modifies this
      ensures userId != me ==> logs == old(logs) && progress == old(progress)
      ensures userId == me && processed != total ==> progress == Some((processed, total)) && logs == old(logs)
      ensures userId == me && processed == total ==> progress.None? && logs == fetched.GetOr(old(logs))
    {
      if userId != me {
        return;
      }
      progress := Some((processed, total));
      if processed == total {
        progress := None;
        if fetched.Some? {
          logs := fetched.value;
        }
      }
    }
  }
}
