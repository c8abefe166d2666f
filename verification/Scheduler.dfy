/**
 orchestration/scheduler.py, the scheduler object: job and limiter objects that are changed in
 place. Each method is proved to do what its step in SchedulerSteps does to the values.
 */
module Scheduler {
  import opened Prelude
  import opened JobModels
  import opened RateLimiter
  import Steps = SchedulerSteps

  function Records(jobs: seq<Job>): (r: seq<JobRecord>)
    reads jobs
    ensures |r| == |jobs|
    ensures forall i :: 0 <= i < |jobs| ==> r[i] == jobs[i].Record()
  {
    seq(|jobs|, i requires 0 <= i < |jobs| reads jobs => jobs[i].Record())
  }

  ghost function Buckets(limiters: map<string, Limiter>): (r: map<string, Bucket>)
    reads limiters.Values
    ensures r.Keys == limiters.Keys
    ensures forall k :: k in limiters ==> r[k] == limiters[k].State()
  {
    map k | k in limiters :: limiters[k].State()
  }

  ghost predicate Injective(limiters: map<string, Limiter>) {
    forall a, b :: a in limiters && b in limiters && a != b ==> limiters[a] != limiters[b]
  }

  class IntelligentScheduler {
    const config: Steps.Config
    var queue: seq<Job>
    var targetLimiters: map<string, Limiter>
    var ipLimiters: map<string, Limiter>
    var decisionsLog: seq<ScheduleDecision>

    /** The records of the queued jobs at the moment they were put, which is what the priority
        queue has compared, and the history of the run. */
    ghost var pushed: seq<JobRecord>
    ghost var calls: seq<Steps.Call>
    ghost var finished: seq<JobRecord>
    ghost var lost: seq<JobRecord>

    ghost predicate Valid()
      reads this, queue
    {
      && pushed == Records(queue)
      && Injective(targetLimiters) && Injective(ipLimiters)
      && targetLimiters.Values !! ipLimiters.Values
    }

    ghost function State(): Steps.State
      reads this, queue, targetLimiters.Values, ipLimiters.Values
    {
      Steps.State(Records(queue), Buckets(targetLimiters), Buckets(ipLimiters), decisionsLog, calls, finished, lost)
    }

    ghost function Limiters(): set<Limiter>
      reads this
    {
      targetLimiters.Values + ipLimiters.Values
    }

    constructor (slowMode: bool)
      ensures Valid() && State() == Steps.INITIAL && config == Steps.ConfigFor(slowMode)
      ensures queue == [] && pushed == []
    {
      config := Steps.ConfigFor(slowMode);
      queue, targetLimiters, ipLimiters, decisionsLog := [], map[], map[], [];
      pushed, calls, finished, lost := [], [], [], [];
    }

    /** `add_job`, and the `queue.put` of the loop, at any time and for any job. */
    method AddJob(job: Job)
      modifies this`queue, this`pushed
      ensures old(Valid()) ==> Valid()
      ensures queue == old(queue) + [job] && pushed == old(pushed) + [job.Record()]
      ensures State() == old(State()).(queue := old(State()).queue + [job.Record()])
    {
      queue := queue + [job];
      pushed := pushed + [job.Record()];
      assert Records(queue) == Records(old(queue)) + [job.Record()];
    }

    /** `queue.get`: the priority queue delivers an element that is minimal among the records it
        compared when they were put. No job has changed since, so it is minimal now. */
    method Take(pick: nat) returns (job: Job)
      requires Valid() && MinimalAt(pushed, pick)
      modifies this`queue, this`pushed
      ensures Valid() && pick < |old(queue)| && job == old(queue)[pick]
      ensures queue == Steps.RemoveAt(old(queue), pick) && pushed == Steps.RemoveAt(old(pushed), pick)
      ensures old(Distinct(queue)) ==> Distinct(queue) && job !in queue
      ensures MinimalAt(old(State()).queue, pick)
      ensures State() == old(State()).(queue := Steps.RemoveAt(old(State()).queue, pick))
    {
      job := queue[pick];
      queue := Steps.RemoveAt(queue, pick);
      pushed := Steps.RemoveAt(pushed, pick);
    }

    method LogDecision(jobId: string, action: Action, delay: real)
      requires Valid()
      modifies this`decisionsLog
      ensures Valid()
      ensures State() == old(State()).(log := old(State()).log + [ScheduleDecision(jobId, action, delay)])
    {
      decisionsLog := decisionsLog + [ScheduleDecision(jobId, action, delay)];
    }

    /** Log, set the new time on the job object, and put it back. */
    method Postpone(job: Job, action: Action, delay: real, until: real)
      requires Valid() && job !in queue
      modifies this`queue, this`pushed, this`decisionsLog, job`scheduledFor, job`scheduledZoned
      ensures Valid() && queue == old(queue) + [job]
      ensures State() == Steps.Postpone(old(State()), old(job.Record()), action, delay, until)
    {
      LogDecision(job.id, action, delay);
      label Logged:
      job.scheduledFor, job.scheduledZoned := until, false;
      assert State() == old@Logged(State()) && Valid();
      hide State, Valid;
      AddJob(job);
    }

    /** `_get_target_limiter` */
    method GetTargetLimiter(target: string, now: real) returns (limiter: Limiter)
      requires Valid()
      modifies this`targetLimiters
      ensures Valid() && target in targetLimiters && limiter == targetLimiters[target]
      ensures State() == old(State()).(targets := Steps.WithLimiter(config, old(State()).targets, target, now))
      ensures fresh(Limiters() - old(Limiters()))
    {
      hide Records, Buckets, Distinct, Steps.ConfigFor;
      if target !in targetLimiters {
        limiter := new Limiter(config.capacity, config.refillRate, now);
        NewValue(targetLimiters, target, limiter);
        targetLimiters := targetLimiters[target := limiter];
        assert Buckets(targetLimiters) == old(Buckets(targetLimiters))[target := limiter.State()];
      }
      limiter := targetLimiters[target];
    }

    /** `_get_ip_limiter` */
    method GetIpLimiter(ip: string, now: real) returns (limiter: Limiter)
      requires Valid()
      modifies this`ipLimiters
      ensures Valid() && ip in ipLimiters && limiter == ipLimiters[ip]
      ensures State() == old(State()).(ips := Steps.WithLimiter(config, old(State()).ips, ip, now))
      ensures fresh(Limiters() - old(Limiters()))
    {
      hide Records, Buckets, Distinct, Steps.ConfigFor;
      if ip !in ipLimiters {
        limiter := new Limiter(config.capacity, config.refillRate, now);
        NewValue(ipLimiters, ip, limiter);
        ipLimiters := ipLimiters[ip := limiter];
        assert Buckets(ipLimiters) == old(Buckets(ipLimiters))[ip := limiter.State()];
      }
      limiter := ipLimiters[ip];
    }

    method AskTarget(target: string, now: real) returns (granted: bool)
      requires Valid() && target in targetLimiters
      modifies Limiters()
      ensures Valid()
      ensures granted == Grants(old(State()).targets[target], 1.0, now)
      ensures State() == old(State()).(targets :=
                old(State()).targets[target := Consumed(old(State()).targets[target], 1.0, now)])
    {
      granted := targetLimiters[target].Consume(1.0, now);
      assert Buckets(targetLimiters) == old(Buckets(targetLimiters))[target := targetLimiters[target].State()];
    }

    method AskIp(ip: string, now: real) returns (granted: bool)
      requires Valid() && ip in ipLimiters
      modifies Limiters()
      ensures Valid()
      ensures granted == Grants(old(State()).ips[ip], 1.0, now)
      ensures State() == old(State()).(ips := old(State()).ips[ip := Consumed(old(State()).ips[ip], 1.0, now)])
    {
      granted := ipLimiters[ip].Consume(1.0, now);
      assert Buckets(ipLimiters) == old(Buckets(ipLimiters))[ip := ipLimiters[ip].State()];
    }

    ghost method RecordCall(job: Job, t: Steps.Tick)
      requires Valid()
      modifies this`calls
      ensures Valid()
      ensures State() == old(State()).(calls := old(State()).calls
                           + [Steps.Call(job.id, job.targetDomain, job.sourceIp, t.target, t.ip, t.enter)])
    {
      calls := calls + [Steps.Call(job.id, job.targetDomain, job.sourceIp, t.target, t.ip, t.enter)];
    }

    ghost method RecordFinished(job: Job)
      requires Valid()
      modifies this`finished
      ensures Valid()
      ensures State() == old(State()).(finished := old(State()).finished + [job.Record()])
    {
      finished := finished + [job.Record()];
    }

    ghost method RecordLost(job: Job)
      requires Valid()
      modifies this`lost
      ensures Valid()
      ensures State() == old(State()).(lost := old(State()).lost + [job.Record()])
    {
      lost := lost + [job.Record()];
    }

    /** The call of the executor is an attempt of the job. */
    method CountAttempt(job: Job, t: Steps.Tick)
      requires Valid() && job !in queue
      modifies this`calls, job`executionAttempts
      ensures Valid()
      ensures job.Record() == old(job.Record()).(attempts := old(job.Record()).attempts + 1)
      ensures State() == old(State()).(calls := old(State()).calls
                           + [Steps.Call(job.id, job.targetDomain, job.sourceIp, t.target, t.ip, t.enter)])
    {
      RecordCall(job, t);
      label Called:
      job.executionAttempts := job.executionAttempts + 1;
      assert State() == old@Called(State());
    }

    /** The call of the executor and what follows it. */
    method Execute(job: Job, t: Steps.Tick)
      requires Valid() && job !in queue
      modifies this`queue, this`pushed, this`decisionsLog, this`calls, this`finished, job
      ensures Valid() && (queue == old(queue) || queue == old(queue) + [job])
      ensures State() == Steps.Execute(old(State()), old(job.Record()), t)
    {
      hide State, Valid, Records, Buckets, Injective, Steps.Postpone;
      CountAttempt(job, t);
      if !t.success {
        var baseDelay := Pow2(job.executionAttempts) as real;
        var backoff := baseDelay + t.jitter;
        Postpone(job, Backoff, backoff, t.finish + backoff);
      } else {
        LogDecision(job.id, Executed, 0.0);
        RecordFinished(job);
      }
    }

    /** The two limiters, and the execution when both let the job pass. */
    method Admit(job: Job, t: Steps.Tick)
      requires Valid() && job !in queue
      modifies this, job, Limiters()
      ensures Valid() && (queue == old(queue) || queue == old(queue) + [job])
      ensures State() == Steps.Admit(config, old(State()), old(job.Record()), t)
    {
      hide Grants, Consumed, Steps.WithLimiter, Steps.AdmitFromIp, Steps.Postpone, State, Valid, Distinct, Injective,
        Records, Buckets;
      var _ := GetTargetLimiter(job.targetDomain, t.create);
      var _ := GetIpLimiter(job.sourceIp, t.create);
      var granted := AskTarget(job.targetDomain, t.target);
      if !granted {
        Postpone(job, DelayedRateLimit, 5.0, t.deny + 5.0);
        return;
      }
      AdmitFromIp(job, t);
    }

    /** The second limiter, and the execution when it lets the job pass too. */
    method AdmitFromIp(job: Job, t: Steps.Tick)
      requires Valid() && job !in queue && job.sourceIp in ipLimiters
      modifies this, job, Limiters()
      ensures Valid() && (queue == old(queue) || queue == old(queue) + [job])
      ensures State() == Steps.AdmitFromIp(old(State()), old(job.Record()), t)
    {
      hide Grants, Consumed, Steps.Execute, Steps.Postpone, State, Valid;
      var granted := AskIp(job.sourceIp, t.ip);
      if !granted {
        Postpone(job, DelayedRateLimit, 5.0, t.deny + 5.0);
        return;
      }
      Execute(job, t);
    }

    /** One complete iteration of `_worker_loop`, for a queue that holds no job object twice. */
    method WorkOnce(t: Steps.Tick)
      requires Valid() && Distinct(queue) && MinimalAt(pushed, t.pick)
      modifies this, queue, Limiters()
      ensures Valid() && Distinct(queue)
      ensures MinimalAt(old(State()).queue, t.pick)
      ensures State() == Steps.Iterate(config, old(State()), t)
    {
      hide Steps.Admit, Steps.Postpone, Steps.RemoveAt, Valid, Records, Buckets, Injective;
      var job := Take(t.pick);
      DistinctAppend(queue, job);
      hide State, Distinct, MinimalAt;
      if job.scheduledZoned {
        RecordLost(job);
        return;
      }
      if job.scheduledFor > t.start {
        var delay := job.scheduledFor - t.start;
        if delay > 1.0 {
          AddJob(job);
          return;
        }
      }
      var inside := Steps.InTimeWindow(job.Record(), t.timeOfDay);
      if inside.None? {
        RecordLost(job);
        return;
      }
      if !inside.value {
        Postpone(job, DelayedTimeWindow, 60.0, t.requeue + 60.0);
        return;
      }
      if t.mlDelay > 0.5 {
        Postpone(job, DelayedMlSuggestion, t.mlDelay, t.requeue + t.mlDelay);
        return;
      }
      Admit(job, t);
    }
  }

  /** The failing case of one job object put in twice, here with another job. When the first entry has been
      taken, postponed and put back, the second has changed while it was queued: among the records compared
      it is minimal, and so delivered next, but among the jobs as they are now it is not. */
  lemma QueuedTwiceNotMinimal(a: JobRecord, b: JobRecord, until: real)
    requires a.priority == b.priority && a.scheduledFor <= b.scheduledFor < until
    ensures var postponed := a.(scheduledFor := until, scheduledZoned := false);
            MinimalAt([a, b, postponed], 0) && !MinimalAt([postponed, b, postponed], 0)
  {
    var postponed := a.(scheduledFor := until, scheduledZoned := false);
    assert Less([postponed, b, postponed][1], postponed);
  }

  lemma DistinctAppend(queue: seq<Job>, job: Job)
    requires Distinct(queue) && job !in queue
    ensures Distinct(queue + [job])
  {
  }

  /** A map keeps its values under a new key, and gains the new one. */
  lemma NewValue(limiters: map<string, Limiter>, key: string, limiter: Limiter)
    requires key !in limiters
    ensures limiters[key := limiter].Values == limiters.Values + {limiter}
  {
    assert forall v :: v in limiters.Values ==> v in limiters[key := limiter].Values by {
      forall v | v in limiters.Values
        ensures v in limiters[key := limiter].Values
      {
        var k :| k in limiters && limiters[k] == v;
        assert k in limiters[key := limiter];
      }
    }
    assert key in limiters[key := limiter];
  }
}
