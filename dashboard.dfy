/** The dashboard's delivery counters: one fetch of the user's logs is
    counted by status, and sending a batch bumps the key that makes the
    log list and the counters refetch. */
module Dashboard {
  import opened Wrappers
  import opened Seqs
  import opened Records

  datatype Stats = Stats(total: nat, successful: nat, failed: nat, pending: nat)

  function WithStatus(status: string): EmailLog -> bool {
    (log: EmailLog) => log.status == status
  }

  /** `logs.filter((log) => log.status === status).length`. */
  function Count(logs: seq<EmailLog>, status: string): (n: nat)
    ensures n <= |logs|
  {
    |Filter(logs, WithStatus(status))|
  }

  /** The counters `fetchStats` computes from one fetch. */
  function StatsOf(logs: seq<EmailLog>): (s: Stats)
    ensures s.total == |logs| && s.successful + s.failed + s.pending <= s.total
  {
    CountsAddUp(logs);
    Stats(|logs|, Count(logs, Sent), Count(logs, Failed), Count(logs, Pending))
  }

  predicate KnownStatus(log: EmailLog) {
    log.status == Sent || log.status == Failed || log.status == Pending
  }

  /** When every status is one of the three, the three counters add up to
      the total; a status outside them is counted by none. */
  lemma {:induction false} CountsAddUp(logs: seq<EmailLog>)
    ensures Count(logs, Sent) + Count(logs, Failed) + Count(logs, Pending) <= |logs|
    ensures (forall k :: 0 <= k < |logs| ==> KnownStatus(logs[k])) ==>
            Count(logs, Sent) + Count(logs, Failed) + Count(logs, Pending) == |logs|
  {
    if logs != [] {
      CountsAddUp(logs[1..]);
      assert (forall k :: 0 <= k < |logs| ==> KnownStatus(logs[k])) ==>
             (forall k :: 0 <= k < |logs[1..]| ==> KnownStatus(logs[1..][k]));
    }
  }

  /** The counters after one fetch. */
  lemma StatsAddUp(logs: seq<EmailLog>)
    requires forall k :: 0 <= k < |logs| ==> KnownStatus(logs[k])
    ensures var s := StatsOf(logs);
            s.total == |logs| && s.successful + s.failed + s.pending == s.total
  {
    CountsAddUp(logs);
  }

  class Page {
    var stats: Stats
    var refreshKey: int

    constructor ()
      ensures stats == Stats(0, 0, 0, 0) && refreshKey == 0
    {
      stats := Stats(0, 0, 0, 0);
      refreshKey := 0;
    }

    /** `fetchStats`: nothing happens without a user id, or with the falsy
        id 0; a failed fetch (`fetched` is None) leaves the counters as
        they were. */
    method FetchStats(userId: Option<int>, fetched: Option<seq<EmailLog>>)
      modifies this
      ensures refreshKey == old(refreshKey)
      ensures userId.Some? && userId.value != 0 && fetched.Some? ==> stats == StatsOf(fetched.value)
      ensures userId.None? || userId == Some(0) || fetched.None? ==> stats == old(stats)
    {
      if userId.None? || userId.value == 0 {
        return;
      }
      if fetched.Some? {
        stats := StatsOf(fetched.value);
      }
    }

    /** `handleEmailsSent`. */
    method EmailsSent()
      modifies this
      ensures refreshKey == old(refreshKey) + 1 && stats == old(stats)
    {
      refreshKey := refreshKey + 1;
    }
  }
}
