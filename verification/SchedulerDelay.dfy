/**
 orchestration/scheduler.py: the budget of a window when calls are counted at the moment the executor
 is entered, not when the buckets admit them. A delay between the two breaks the plain bound; a run
 is built that shows it for every delay.
 */
module SchedulerDelay {
  import opened Prelude
  import opened JobModels
  import RL = RateLimiter
  import opened SchedulerSteps

  /** Capacity plus refill bound the calls entered for each domain in every window. */
  ghost predicate TargetsBounded(cfg: Config, calls: seq<Call>) {
    forall domain :: RL.WindowBound(cfg.capacity, cfg.refillRate, TargetStarts(calls, domain))
  }

  ghost predicate IpsBounded(cfg: Config, calls: seq<Call>) {
    forall ip :: RL.WindowBound(cfg.capacity, cfg.refillRate, IpStarts(calls, ip))
  }

  /** The bound holds of every run whose calls are at most `delay` late. */
  ghost predicate TargetsBoundedFor(cfg: Config, delay: real) {
    forall events :: IsRun(cfg, events) && Prompt(After(cfg, events).calls, delay) ==>
             TargetsBounded(cfg, After(cfg, events).calls)
  }

  ghost predicate IpsBoundedFor(cfg: Config, delay: real) {
    forall events :: IsRun(cfg, events) && Prompt(After(cfg, events).calls, delay) ==>
             IpsBounded(cfg, After(cfg, events).calls)
  }

  // ---------- a call that is held up, and a burst when the bucket has refilled ----------

  const KEY := "target"

  /** The k-th job of the burst; ids of different length are different. */
  function Probe(k: nat): JobRecord {
    JobRecord(seq(k, _ => 'j'), KEY, KEY, 0, None, None, 0.0, false, 0)
  }

  /** A successful iteration in which no time passes until the executor is entered. */
  function TickAt(time: real, enter: real): Tick {
    Tick(0, time, 0.0, time, 0.0, time, time, time, time, enter, true, 0.0, enter)
  }

  /** The first of the calls is admitted at 0 and entered `late` seconds after; all others happen at `burst`. */
  function TickOf(k: nat, late: real, burst: real): Tick {
    if k == 0 then TickAt(0.0, late) else TickAt(burst, burst)
  }

  ghost function Burst(n: nat, late: real, burst: real): seq<Event> {
    if n == 0 then []
    else Burst(n - 1, late, burst) + [Add(Probe(n - 1))] + [Work(TickOf(n - 1, late, burst))]
  }

  function CallOf(k: nat, late: real, burst: real): Call {
    Call(Probe(k).id, KEY, KEY, TickOf(k, late, burst).target, TickOf(k, late, burst).ip, TickOf(k, late, burst).enter)
  }

  ghost function BurstCalls(n: nat, late: real, burst: real): seq<Call> {
    if n == 0 then [] else BurstCalls(n - 1, late, burst) + [CallOf(n - 1, late, burst)]
  }

  /** The bucket after n calls, when a refill until `burst` leaves `whole` tokens. */
  function BucketAfter(cfg: Config, n: nat, whole: nat, burst: real): RL.Bucket {
    if n <= 1 then RL.Bucket(cfg.capacity, cfg.capacity - 1.0, cfg.refillRate, 0.0)
    else RL.Bucket(cfg.capacity, whole as real - (n - 1) as real, cfg.refillRate, burst)
  }

  /** At `burst` the bucket, one call short of its capacity at 0, holds a whole number of tokens. */
  ghost predicate Refilled(cfg: Config, whole: nat, burst: real) {
    && 1.0 <= cfg.capacity && 0.0 <= burst
    && 1 <= whole && whole as real <= cfg.capacity
    && cfg.capacity - 1.0 + RL.Earned(cfg.refillRate, burst) == whole as real
  }

  lemma NextGrant(cfg: Config, n: nat, whole: nat, burst: real)
    requires Refilled(cfg, whole, burst) && 1 <= n <= whole
    ensures RL.Grants(BucketAfter(cfg, n, whole, burst), 1.0, burst)
    ensures RL.Consumed(BucketAfter(cfg, n, whole, burst), 1.0, burst) == BucketAfter(cfg, n + 1, whole, burst)
  {
    assert RL.Earned(cfg.refillRate, burst - 0.0) == RL.Earned(cfg.refillRate, burst);
    assert RL.Earned(cfg.refillRate, burst - burst) == 0.0;
    hide RL.Earned;
  }

  lemma FirstGrant(cfg: Config)
    requires 1.0 <= cfg.capacity
    ensures RL.Grants(RL.NewBucket(cfg.capacity, cfg.refillRate, 0.0), 1.0, 0.0)
    ensures RL.Consumed(RL.NewBucket(cfg.capacity, cfg.refillRate, 0.0), 1.0, 0.0) == BucketAfter(cfg, 1, 1, 0.0)
  {
    assert RL.Earned(cfg.refillRate, 0.0 - 0.0) == 0.0;
    hide RL.Earned;
  }

  /** Where the scheduler stands after n jobs of the burst. */
  ghost predicate BurstState(cfg: Config, s: State, n: nat, whole: nat, late: real, burst: real) {
    && s.queue == [] && s.calls == BurstCalls(n, late, burst)
    && (n == 0 ==> s.targets == map[] && s.ips == map[])
    && (n > 0 ==>
          && s.targets == map[KEY := BucketAfter(cfg, n, whole, burst)]
          && s.ips == map[KEY := BucketAfter(cfg, n, whole, burst)])
  }

  /** One more job is added, taken and executed. */
  lemma BurstStep(cfg: Config, s: State, n: nat, whole: nat, late: real, burst: real)
    requires Refilled(cfg, whole, burst) && 0.0 <= late <= burst && n <= whole
    requires BurstState(cfg, s, n, whole, late, burst)
    ensures BurstState(cfg, Iterate(cfg, s.(queue := s.queue + [Probe(n)]), TickOf(n, late, burst)), n + 1, whole,
                       late, burst)
  {
    FirstGrant(cfg);
    if n > 0 {
      NextGrant(cfg, n, whole, burst);
    }
    hide RL.Earned, RL.Refill, RL.Grants, RL.Consumed, RL.NewBucket;
  }

  /** The ids of the jobs added are the lengths from 0 on. */
  ghost predicate ProbesAdded(added: seq<JobRecord>, n: nat) {
    |added| == n && forall i :: 0 <= i < n ==> added[i] == Probe(i)
  }

  lemma ProbeIsNew(added: seq<JobRecord>, n: nat)
    requires ProbesAdded(added, n)
    ensures Probe(n).id !in Ids(added)
  {
    forall i | 0 <= i < n
      ensures Ids(added)[i] != Probe(n).id
    {
      assert |Probe(i).id| == i;
    }
  }

  lemma {:induction false} BurstReaches(cfg: Config, n: nat, whole: nat, late: real, burst: real)
    requires Refilled(cfg, whole, burst) && 0.0 <= late <= burst && n <= whole + 1
    ensures IsRun(cfg, Burst(n, late, burst))
    ensures BurstState(cfg, After(cfg, Burst(n, late, burst)), n, whole, late, burst)
    ensures ProbesAdded(Added(Burst(n, late, burst)), n)
    ensures n > 0 ==> Clock(Burst(n, late, burst)) == Some(TickOf(n - 1, late, burst).finish)
    ensures n == 0 ==> Clock(Burst(n, late, burst)) == None
  {
    hide Refilled, Iterate, BurstState, RL.Earned, After, IsRun, Added, Clock;
    if n == 0 {
      NothingBurst(cfg, whole, late, burst);
    } else {
      var m := n - 1;
      var before := Burst(m, late, burst);
      BurstReaches(cfg, m, whole, late, burst);
      BurstStep(cfg, After(cfg, before), m, whole, late, burst);
      EmptyQueue(cfg, After(cfg, before), m, whole, late, burst);
      ProbeIsNew(Added(before), m);
      OneMoreJob(cfg, before, Probe(m), TickOf(m, late, burst));
    }
  }

  /** Adding a job to an empty queue and working it off. */
  lemma OneMoreJob(cfg: Config, before: seq<Event>, job: JobRecord, t: Tick)
    requires IsRun(cfg, before) && After(cfg, before).queue == [] && job.id !in Ids(Added(before))
    requires t.pick == 0 && t.InOrder() && t.mlDelay == 0.0 && t.jitter == 0.0
    requires Clock(before).Some? ==> Clock(before).value <= t.start
    ensures var events := before + [Add(job)] + [Work(t)];
            && IsRun(cfg, events)
            && After(cfg, events) == Iterate(cfg, After(cfg, before).(queue := After(cfg, before).queue + [job]), t)
            && Added(events) == Added(before) + [job]
            && Clock(events) == Some(t.finish)
  {
    hide Iterate, Ids;
    var added := before + [Add(job)];
    var events := added + [Work(t)];
    assert added[..|before|] == before;
    assert events[..|added|] == added;
    assert ClockForward(added) && IsRun(cfg, added);
    assert Added(events) == Added(added) + [];
  }

  lemma NothingBurst(cfg: Config, whole: nat, late: real, burst: real)
    ensures BurstState(cfg, After(cfg, []), 0, whole, late, burst)
    ensures IsRun(cfg, []) && Added([]) == [] && Clock([]) == None
  {
  }

  lemma EmptyQueue(cfg: Config, s: State, n: nat, whole: nat, late: real, burst: real)
    requires BurstState(cfg, s, n, whole, late, burst)
    ensures s.queue == []
  {
  }

  lemma StartsGrow(calls: seq<Call>, call: Call, t1: real, t2: real)
    requires call.targetDomain == call.sourceIp == KEY && t1 <= call.start <= t2
    ensures TargetStarts(calls + [call], KEY) == TargetStarts(calls, KEY) + [call.start]
    ensures IpStarts(calls + [call], KEY) == IpStarts(calls, KEY) + [call.start]
    ensures RL.CountIn(TargetStarts(calls, KEY) + [call.start], t1, t2)
              == RL.CountIn(TargetStarts(calls, KEY), t1, t2) + 1
  {
    assert (calls + [call])[..|calls|] == calls;
    var starts := TargetStarts(calls, KEY);
    assert (starts + [call.start])[..|starts|] == starts;
  }

  /** All calls of the burst are entered between the first, late one and the burst. */
  lemma {:induction false} BurstCount(n: nat, late: real, burst: real)
    requires 0.0 <= late <= burst
    ensures Prompt(BurstCalls(n, late, burst), late)
    ensures RL.CountIn(TargetStarts(BurstCalls(n, late, burst), KEY), late, burst) == n
    ensures IpStarts(BurstCalls(n, late, burst), KEY) == TargetStarts(BurstCalls(n, late, burst), KEY)
  {
    hide TargetStarts, IpStarts, RL.CountIn, Prompt, CallOf;
    if n == 0 {
      NothingCounted(late, burst);
    } else {
      BurstCount(n - 1, late, burst);
      BurstCall(n - 1, late, burst);
      StartsGrow(BurstCalls(n - 1, late, burst), CallOf(n - 1, late, burst), late, burst);
      PromptGrows(BurstCalls(n - 1, late, burst), CallOf(n - 1, late, burst), late);
    }
  }

  lemma NothingCounted(late: real, burst: real)
    ensures Prompt([], late) && TargetStarts([], KEY) == [] && IpStarts([], KEY) == []
              && RL.CountIn([], late, burst) == 0
  {
  }

  lemma BurstCall(k: nat, late: real, burst: real)
    requires 0.0 <= late <= burst
    ensures var c := CallOf(k, late, burst);
            && c.targetDomain == c.sourceIp == KEY && late <= c.start <= burst
            && 0.0 <= c.start - c.targetTime <= late && 0.0 <= c.start - c.ipTime <= late
  {
  }

  lemma PromptGrows(calls: seq<Call>, call: Call, delay: real)
    requires Prompt(calls, delay)
    requires 0.0 <= call.start - call.targetTime <= delay && 0.0 <= call.start - call.ipTime <= delay
    ensures Prompt(calls + [call], delay)
  {
  }

  /** The refill of a span: from `late` to `burst` it falls short of a whole token. */
  lemma ShortRefill(cfg: Config, whole: nat, late: real, burst: real)
    requires Refilled(cfg, whole, burst) && 0.0 < cfg.refillRate && 0.0 < late
    ensures cfg.capacity + cfg.refillRate * (burst - late) < (whole + 1) as real
  {
    assert RL.Earned(cfg.refillRate, burst - late) == RL.Earned(cfg.refillRate, burst) - late * cfg.refillRate;
    assert late * cfg.refillRate > 0.0;
    hide RL.Earned;
  }

  /** The time at which the bucket holds a whole number of tokens again. */
  lemma RefillTime(cfg: Config) returns (whole: nat, burst: real)
    requires 1.0 <= cfg.capacity && 0.0 < cfg.refillRate
    ensures Refilled(cfg, whole, burst) && 0.0 < burst
  {
    whole := cfg.capacity.Floor;
    var missing := whole as real + 1.0 - cfg.capacity;
    burst := missing / cfg.refillRate;
    assert burst * cfg.refillRate == missing;
    assert RL.Earned(cfg.refillRate, burst) == missing;
  }

  /** However small a delay is allowed, some run has more calls in a window than the plain bound. */
  lemma {:induction false} DelayBreaksBudget(cfg: Config, delay: real) returns (events: seq<Event>)
    requires 1.0 <= cfg.capacity && 0.0 < cfg.refillRate && 0.0 < delay
    ensures IsRun(cfg, events) && Prompt(After(cfg, events).calls, delay)
    ensures !TargetsBounded(cfg, After(cfg, events).calls) && !IpsBounded(cfg, After(cfg, events).calls)
  {
    hide RL.Earned, Refilled, IsRun, After, TickOf, Burst, BurstCalls, BucketAfter, TargetStarts, IpStarts,
      RL.CountIn, Prompt;
    var whole, burst := RefillTime(cfg);
    var late := if delay < burst then delay else burst;
    events := Burst(whole + 1, late, burst);
    BurstReaches(cfg, whole + 1, whole, late, burst);
    BurstCount(whole + 1, late, burst);
    PromptEnough(BurstCalls(whole + 1, late, burst), late, delay);
    ShortRefill(cfg, whole, late, burst);
  }

  lemma PromptEnough(calls: seq<Call>, late: real, delay: real)
    requires Prompt(calls, late) && late <= delay
    ensures Prompt(calls, delay)
  {
  }

  /** Counted when the executor is entered, capacity plus refill bound the calls of every window of
      every run, for each domain and for each source IP, if and only if no time passes between
      admission and call. Both configurations of the scheduler have such a capacity and refill rate. */
  lemma PlainBudgetIff(cfg: Config, delay: real)
    requires 1.0 <= cfg.capacity && 0.0 < cfg.refillRate && 0.0 <= delay
    ensures TargetsBoundedFor(cfg, delay) <==> delay == 0.0
    ensures IpsBoundedFor(cfg, delay) <==> delay == 0.0
  {
    hide RL.Earned, IsRun, After, Prompt, RL.WindowBound;
    if delay > 0.0 {
      var events := DelayBreaksBudget(cfg, delay);
    } else {
      forall events, key | IsRun(cfg, events) && Prompt(After(cfg, events).calls, 0.0)
        ensures RL.WindowBound(cfg.capacity, cfg.refillRate, TargetStarts(After(cfg, events).calls, key))
        ensures RL.WindowBound(cfg.capacity, cfg.refillRate, IpStarts(After(cfg, events).calls, key))
      {
        PromptIsBounded(cfg, events, key);
      }
    }
  }

  lemma PromptIsBounded(cfg: Config, events: seq<Event>, key: string)
    requires ValidConfig(cfg) && IsRun(cfg, events) && Prompt(After(cfg, events).calls, 0.0)
    ensures RL.WindowBound(cfg.capacity, cfg.refillRate, TargetStarts(After(cfg, events).calls, key))
    ensures RL.WindowBound(cfg.capacity, cfg.refillRate, IpStarts(After(cfg, events).calls, key))
  {
    hide RL.Earned, IsRun, After, Prompt, TargetStarts, IpStarts, RL.CountIn;
    forall t1, t2 | t1 <= t2
      ensures RL.CountIn(TargetStarts(After(cfg, events).calls, key), t1, t2) as real
                <= cfg.capacity + cfg.refillRate * (t2 - t1)
      ensures RL.CountIn(IpStarts(After(cfg, events).calls, key), t1, t2) as real
                <= cfg.capacity + cfg.refillRate * (t2 - t1)
    {
      PromptStartsWithinBudget(cfg, events, 0.0, key, t1, t2);
      assert t2 - t1 + 0.0 == t2 - t1;
    }
  }
}
