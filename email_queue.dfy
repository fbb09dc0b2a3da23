/** The `emailQueue` BullMQ queue, seen from the producer: `add` appends a
    job or throws. Delivery, durability and retries belong to the broker. */
module EmailQueue {
  import opened Wrappers
  import opened Records

  class Queue {
    var jobs: seq<Job>

    constructor ()
      ensures jobs == []
    {
      jobs := [];
    }

    /** `emailQueue.add("sendEmail", job)`; `fault` is the error the broker
        raises, if any, in which case nothing is enqueued. */
    method Add(job: Job, fault: Option<string>) returns (r: Outcome<string>)
      modifies this
      ensures fault.Some? ==> r == Fail(fault.value) && jobs == old(jobs)
      ensures fault.None? ==> r == Pass && jobs == old(jobs) + [job]
    {
      if fault.Some? {
        return Fail(fault.value);
      }
      jobs := jobs + [job];
      r := Pass;
    }
  }
}
