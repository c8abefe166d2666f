/** orchestration/models.py: jobs, their order in the queue, and audit entries. */
module JobModels {
  import opened Prelude

  /** An end of a time window; one that carries a time zone cannot be compared with one that does not. */
  datatype ClockTime = ClockTime(seconds: real, zoned: bool)

  /** The values of the fields of a job at one moment; instants are seconds. `scheduledZoned` tells that
      `scheduled_for` carries a time zone. */
  datatype JobRecord = JobRecord(
    id: string,
    targetDomain: string,
    sourceIp: string,
    priority: int,
    windowStart: Option<ClockTime>,
    windowEnd: Option<ClockTime>,
    scheduledFor: real,
    scheduledZoned: bool,
    attempts: nat)

  /** `Job.__lt__` */
  predicate Less(a: JobRecord, b: JobRecord) {
    if a.priority == b.priority then a.scheduledFor < b.scheduledFor else a.priority < b.priority
  }

  /** The order is a strict weak order, which is what a priority queue needs. */
  lemma LessIsStrictWeakOrder(a: JobRecord, b: JobRecord, c: JobRecord)
    ensures !(Less(a, b) && Less(b, a))
    ensures Less(a, b) ==> Less(a, c) || Less(c, b)
    ensures Less(a, b) && Less(b, c) ==> Less(a, c)
  {
  }

  /** No element of the queue is less than the one at `pick`. */
  ghost predicate MinimalAt(queue: seq<JobRecord>, pick: int) {
    0 <= pick < |queue| && forall i :: 0 <= i < |queue| ==> !Less(queue[i], queue[pick])
  }

  /** A minimal element: nothing in the queue is more urgent, and nothing as urgent is scheduled earlier. */
  lemma MinimalMeans(queue: seq<JobRecord>, pick: nat)
    requires pick < |queue|
    ensures MinimalAt(queue, pick) <==>
            forall i :: 0 <= i < |queue| ==>
              queue[pick].priority <= queue[i].priority
              && (queue[pick].priority == queue[i].priority ==> queue[pick].scheduledFor <= queue[i].scheduledFor)
  {
    if MinimalAt(queue, pick) {
      forall i | 0 <= i < |queue|
        ensures queue[pick].priority <= queue[i].priority
          && (queue[pick].priority == queue[i].priority ==> queue[pick].scheduledFor <= queue[i].scheduledFor)
      {
        assert !Less(queue[i], queue[pick]);
      }
    }
  }

  datatype Action = Executed | DelayedRateLimit | DelayedTimeWindow | DelayedMlSuggestion | Backoff

  datatype ScheduleDecision = ScheduleDecision(jobId: string, action: Action, delaySeconds: real)

  class Job {
    const id: string
    const targetDomain: string
    const sourceIp: string
    const priority: int
    const windowStart: Option<ClockTime>
    const windowEnd: Option<ClockTime>
    var scheduledFor: real
    var scheduledZoned: bool
    var executionAttempts: nat

    constructor (record: JobRecord)
      ensures Record() == record
    {
      id, targetDomain, sourceIp, priority := record.id, record.targetDomain, record.sourceIp, record.priority;
      windowStart, windowEnd := record.windowStart, record.windowEnd;
      scheduledFor, scheduledZoned := record.scheduledFor, record.scheduledZoned;
      executionAttempts := record.attempts;
    }

    function Record(): JobRecord
      reads this
    {
      JobRecord(id, targetDomain, sourceIp, priority, windowStart, windowEnd,
                scheduledFor, scheduledZoned, executionAttempts)
    }
  }
}
