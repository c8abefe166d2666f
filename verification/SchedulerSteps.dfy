/**
 orchestration/scheduler.py, the worker loop as steps on values: what one complete iteration does
 to the queue, the limiters and the audit log, and what holds after any sequence of steps.
 */
module SchedulerSteps {
  import opened Prelude
  import opened JobModels
  import opened RateLimiter

  datatype Config = Config(capacity: real, refillRate: real)

  function ConfigFor(slowMode: bool): Config {
    if slowMode then Config(10.0, 0.5) else Config(100.0, 10.0)
  }

  /** A call of the executor, with the clock readings of the two requests that admitted it and the
      time at which the executor is entered. */
  datatype Call = Call(jobId: string, targetDomain: string, sourceIp: string, targetTime: real, ipTime: real,
                       start: real)

  /** `finished` are the jobs executed with success, `lost` those dropped by an error in the loop. */
  datatype State = State(
    queue: seq<JobRecord>,
    targets: map<string, Bucket>,
    ips: map<string, Bucket>,
    log: seq<ScheduleDecision>,
    calls: seq<Call>,
    finished: seq<JobRecord>,
    lost: seq<JobRecord>)

  const INITIAL := State([], map[], map[], [], [], [], [])

  /** What one iteration reads from outside: the element the priority queue delivers, the clock at
      each point of the loop body, the answers of the model and of the executor, and the jitter. */
  datatype Tick = Tick(
    pick: nat, start: real, timeOfDay: real, requeue: real, mlDelay: real,
    create: real, target: real, ip: real, deny: real, enter: real, success: bool, jitter: real, finish: real)
  {
    ghost predicate InOrder() {
      start <= requeue <= create <= target <= ip <= deny <= finish && ip <= enter <= finish
    }
  }

  function RemoveAt<T>(s: seq<T>, k: nat): seq<T>
    requires k < |s|
  {
    s[..k] + s[k + 1..]
  }

  /** `_is_in_time_window`; None when the code raises: when exactly one end of the window is set, it names
      a member that the `time` module does not have, and an end that carries a time zone cannot be
      compared with the reading of the clock, which carries none. */
  function InTimeWindow(job: JobRecord, now: real): Option<bool> {
    if job.windowStart.None? && job.windowEnd.None? then Some(true)
    else if job.windowStart.None? || job.windowEnd.None? then None
    else
      var start, end := job.windowStart.value, job.windowEnd.value;
      if start.zoned || end.zoned then None
      else if start.seconds <= end.seconds then Some(start.seconds <= now <= end.seconds)
      else Some(now >= start.seconds || now <= end.seconds)
  }

  /** Log a decision and put the job back with a later time, which carries no time zone. */
  function Postpone(s: State, job: JobRecord, action: Action, delay: real, until: real): State {
    s.(log := s.log + [ScheduleDecision(job.id, action, delay)],
       queue := s.queue + [job.(scheduledFor := until, scheduledZoned := false)])
  }

  function WithLimiter(cfg: Config, limiters: map<string, Bucket>, key: string, now: real): map<string, Bucket> {
    if key in limiters then limiters else limiters[key := NewBucket(cfg.capacity, cfg.refillRate, now)]
  }

  function BackoffDelay(attempts: nat, jitter: real): real {
    Pow2(attempts) as real + jitter
  }

  function Execute(s: State, job: JobRecord, t: Tick): State {
    var job' := job.(attempts := job.attempts + 1);
    var s' := s.(calls := s.calls + [Call(job.id, job.targetDomain, job.sourceIp, t.target, t.ip, t.enter)]);
    if t.success then
      s'.(log := s'.log + [ScheduleDecision(job.id, Executed, 0.0)], finished := s'.finished + [job'])
    else
      var delay := BackoffDelay(job'.attempts, t.jitter);
      Postpone(s', job', Backoff, delay, t.finish + delay)
  }

  /** What follows when the domain's limiter has let the job pass. */
  function AdmitFromIp(s: State, job: JobRecord, t: Tick): State
    requires job.sourceIp in s.ips
  {
    var ipBucket := s.ips[job.sourceIp];
    var s' := s.(ips := s.ips[job.sourceIp := Consumed(ipBucket, 1.0, t.ip)]);
    if !Grants(ipBucket, 1.0, t.ip) then Postpone(s', job, DelayedRateLimit, 5.0, t.deny + 5.0)
    else Execute(s', job, t)
  }

  function Admit(cfg: Config, s: State, job: JobRecord, t: Tick): State {
    var targets := WithLimiter(cfg, s.targets, job.targetDomain, t.create);
    var ips := WithLimiter(cfg, s.ips, job.sourceIp, t.create);
    var targetBucket := targets[job.targetDomain];
    var s' := s.(targets := targets[job.targetDomain := Consumed(targetBucket, 1.0, t.target)], ips := ips);
    if !Grants(targetBucket, 1.0, t.target) then Postpone(s', job, DelayedRateLimit, 5.0, t.deny + 5.0)
    else AdmitFromIp(s', job, t)
  }

  /** The body of the loop for a job that has been taken from the queue. Its own time, when it carries a
      time zone, cannot be compared with the clock. */
  function Handle(cfg: Config, s: State, job: JobRecord, t: Tick): State {
    if job.scheduledZoned then s.(lost := s.lost + [job])
    else if job.scheduledFor - t.start > 1.0 then s.(queue := s.queue + [job])
    else if InTimeWindow(job, t.timeOfDay).None? then s.(lost := s.lost + [job])
    else if !InTimeWindow(job, t.timeOfDay).value then
      Postpone(s, job, DelayedTimeWindow, 60.0, t.requeue + 60.0)
    else if t.mlDelay > 0.5 then
      Postpone(s, job, DelayedMlSuggestion, t.mlDelay, t.requeue + t.mlDelay)
    else Admit(cfg, s, job, t)
  }

  function Iterate(cfg: Config, s: State, t: Tick): State
    requires t.pick < |s.queue|
  {
    Handle(cfg, s.(queue := RemoveAt(s.queue, t.pick)), s.queue[t.pick], t)
  }

  // ---------- the time window ----------

  const DAY := 86400.0

  /** How far the clock face turns from one time of day to another. */
  function Turn(from: real, to: real): real {
    if to >= from then to - from else to - from + DAY
  }

  /** With both ends set, a time is inside exactly when the clock face, turning from the start,
      meets it no later than the end; over midnight or not. */
  lemma WindowIsAnArc(job: JobRecord, now: real)
    requires job.windowStart.Some? && job.windowEnd.Some?
    requires !job.windowStart.value.zoned && !job.windowEnd.value.zoned
    requires 0.0 <= job.windowStart.value.seconds < DAY && 0.0 <= job.windowEnd.value.seconds < DAY && 0.0 <= now < DAY
    ensures var start, end := job.windowStart.value.seconds, job.windowEnd.value.seconds;
            InTimeWindow(job, now) == Some(Turn(start, now) <= Turn(start, end))
  {
  }

  /** A job without a window is always inside. */
  lemma NoWindowNoLimit(job: JobRecord, now: real)
    requires job.windowStart.None? && job.windowEnd.None?
    ensures InTimeWindow(job, now) == Some(true)
  {
  }

  // ---------- where the job goes ----------

  /** What never changes about a job: its id, its window, and whether its time carries a zone. */
  ghost predicate SameJob(a: JobRecord, b: JobRecord) {
    && a.id == b.id && a.windowStart == b.windowStart && a.windowEnd == b.windowEnd
    && a.scheduledZoned == b.scheduledZoned
  }

  /** One job was taken and ends up in exactly one place, with at most one entry in the log. */
  ghost predicate Moves(s: State, s': State, pick: nat, job': JobRecord, entry: seq<ScheduleDecision>) {
    && pick < |s.queue|
    && SameJob(s.queue[pick], job')
    && s'.log == s.log + entry
    && (entry == [] || (|entry| == 1 && entry[0].jobId == job'.id))
    && job'.attempts == s.queue[pick].attempts
         + (if |entry| == 1 && (entry[0].action == Executed || entry[0].action == Backoff) then 1 else 0)
    && (|| (s'.queue == RemoveAt(s.queue, pick) + [job'] && s'.finished == s.finished && s'.lost == s.lost
            && (|entry| == 1 ==> entry[0].action != Executed))
        || (s'.queue == RemoveAt(s.queue, pick) && s'.finished == s.finished + [job'] && s'.lost == s.lost
            && |entry| == 1 && entry[0].action == Executed)
        || (s'.queue == RemoveAt(s.queue, pick) && s'.finished == s.finished && s'.lost == s.lost + [job']
            && entry == []))
  }

  /** The entries that a step added to the log. */
  ghost function NewEntries(s: State, s': State): seq<ScheduleDecision> {
    if |s.log| <= |s'.log| then s'.log[|s.log|..] else []
  }

  /** The record that a step moved. */
  ghost function MovedJob(s: State, s': State, job: JobRecord): JobRecord {
    if |s'.finished| > |s.finished| then s'.finished[|s.finished|]
    else if |s'.lost| > |s.lost| then s'.lost[|s.lost|]
    else if s'.queue != [] then s'.queue[|s'.queue| - 1]
    else job
  }

  ghost predicate MovesPicked(s: State, s': State, pick: nat)
    requires pick < |s.queue|
  {
    Moves(s, s', pick, MovedJob(s, s', s.queue[pick]), NewEntries(s, s'))
  }

  lemma AdmitMoves(cfg: Config, s: State, t: Tick)
    requires t.pick < |s.queue| && !s.queue[t.pick].scheduledZoned
    ensures MovesPicked(s, Admit(cfg, s.(queue := RemoveAt(s.queue, t.pick)), s.queue[t.pick], t), t.pick)
  {
    hide Grants, Consumed, WithLimiter, BackoffDelay, InTimeWindow, RemoveAt;
  }

  lemma PostponeMoves(s: State, pick: nat, action: Action, delay: real, until: real)
    requires pick < |s.queue| && !s.queue[pick].scheduledZoned && action != Executed && action != Backoff
    ensures MovesPicked(s, Postpone(s.(queue := RemoveAt(s.queue, pick)), s.queue[pick], action, delay, until), pick)
  {
    hide RemoveAt;
  }

  /** Put back as it is, or dropped. */
  lemma UnchangedMoves(s: State, pick: nat)
    requires pick < |s.queue|
    ensures MovesPicked(s, s.(queue := RemoveAt(s.queue, pick) + [s.queue[pick]]), pick)
    ensures MovesPicked(s, s.(queue := RemoveAt(s.queue, pick), lost := s.lost + [s.queue[pick]]), pick)
  {
    hide RemoveAt;
  }

  lemma IterateMoves(cfg: Config, s: State, t: Tick) returns (job': JobRecord, entry: seq<ScheduleDecision>)
    requires t.pick < |s.queue|
    ensures Moves(s, Iterate(cfg, s, t), t.pick, job', entry)
  {
    hide Admit, InTimeWindow, RemoveAt, Postpone, Moves, MovedJob, NewEntries;
    var s' := Iterate(cfg, s, t);
    UnchangedMoves(s, t.pick);
    if !s.queue[t.pick].scheduledZoned {
      AdmitMoves(cfg, s, t);
      PostponeMoves(s, t.pick, DelayedTimeWindow, 60.0, t.requeue + 60.0);
      PostponeMoves(s, t.pick, DelayedMlSuggestion, t.mlDelay, t.requeue + t.mlDelay);
    }
    job', entry := MovedJob(s, s', s.queue[t.pick]), NewEntries(s, s');
  }

  ghost predicate OneSided(job: JobRecord) {
    job.windowStart.None? != job.windowEnd.None?
  }

  /** The window of the job makes the code raise. */
  ghost predicate WindowRaises(job: JobRecord) {
    || OneSided(job)
    || (job.windowStart.Some? && job.windowEnd.Some? && (job.windowStart.value.zoned || job.windowEnd.value.zoned))
  }

  /** A job is dropped if and only if its time carries a zone, or it is due and its window raises. */
  lemma LostIff(cfg: Config, s: State, t: Tick)
    requires t.pick < |s.queue|
    ensures Iterate(cfg, s, t).lost != s.lost <==>
            || s.queue[t.pick].scheduledZoned
            || (s.queue[t.pick].scheduledFor - t.start <= 1.0 && WindowRaises(s.queue[t.pick]))
    ensures Iterate(cfg, s, t).lost != s.lost ==> Iterate(cfg, s, t).lost == s.lost + [s.queue[t.pick]]
  {
    hide Grants, Consumed, WithLimiter, BackoffDelay, RemoveAt;
  }

  /** The failing cases: one job with only a start of its window, or with a time zone, and one iteration
      later no job at all. */
  lemma UnusableJobVanishes(cfg: Config, job: JobRecord, t: Tick)
    requires job.scheduledFor <= t.start && t.pick == 0
    requires (job.windowStart.Some? && job.windowEnd.None?) || job.scheduledZoned
    ensures var s := Iterate(cfg, INITIAL.(queue := [job]), t);
            s.queue == [] && s.finished == [] && s.log == [] && s.lost == [job]
  {
  }

  lemma WithLimiterHas(cfg: Config, limiters: map<string, Bucket>, key: string, now: real)
    ensures key in WithLimiter(cfg, limiters, key, now)
  {
  }

  /** The executor is called if and only if the job is due, inside its window, not held back by the
      model, and let through by both buckets. */
  lemma CalledIff(cfg: Config, s: State, t: Tick)
    requires t.pick < |s.queue|
    ensures var job := s.queue[t.pick];
            var targets, ips := WithLimiter(cfg, s.targets, job.targetDomain, t.create),
                  WithLimiter(cfg, s.ips, job.sourceIp, t.create);
            var s' := Iterate(cfg, s, t);
            && (s'.calls != s.calls <==>
                  && !job.scheduledZoned && job.scheduledFor - t.start <= 1.0
                  && InTimeWindow(job, t.timeOfDay) == Some(true) && t.mlDelay <= 0.5
                  && Grants(targets[job.targetDomain], 1.0, t.target) && Grants(ips[job.sourceIp], 1.0, t.ip))
            && (s'.calls != s.calls ==>
                  && s'.calls == s.calls + [Call(job.id, job.targetDomain, job.sourceIp, t.target, t.ip, t.enter)]
                  && s'.targets == targets[job.targetDomain := Consumed(targets[job.targetDomain], 1.0, t.target)]
                  && s'.ips == ips[job.sourceIp := Consumed(ips[job.sourceIp], 1.0, t.ip)])
  {
    hide Grants, Consumed, BackoffDelay, InTimeWindow, RemoveAt;
    assert |Iterate(cfg, s, t).calls| == |s.calls| ==> Iterate(cfg, s, t).calls == s.calls;
  }

  /** A failed call puts the job back, one attempt older and 2^n seconds and the jitter after the failure, which
      is at most 1.5 * 2^n, for n attempts in all; a successful one finishes it. The log says so. */
  lemma CallOutcome(cfg: Config, s: State, t: Tick)
    requires t.pick < |s.queue| && Iterate(cfg, s, t).calls != s.calls
    requires 0.0 <= t.jitter <= 0.5 * Pow2(s.queue[t.pick].attempts + 1) as real
    ensures var job := s.queue[t.pick];
            var s', n := Iterate(cfg, s, t), job.attempts + 1;
            var delay := Pow2(n) as real + t.jitter;
            && delay <= 1.5 * Pow2(n) as real
            && if t.success then
                 && s'.finished == s.finished + [job.(attempts := n)] && s'.queue == RemoveAt(s.queue, t.pick)
                 && s'.log == s.log + [ScheduleDecision(job.id, Executed, 0.0)]
               else
                 && s'.finished == s.finished
                 && s'.queue == RemoveAt(s.queue, t.pick) + [job.(attempts := n, scheduledFor := t.finish + delay)]
                 && s'.log == s.log + [ScheduleDecision(job.id, Backoff, delay)]
  {
    hide Grants, Consumed, InTimeWindow, WithLimiter, Pow2, RemoveAt;
  }

  /** The job is put back for `delay` seconds from `from`, and the log says why. */
  ghost predicate PutBack(s: State, s': State, pick: nat, action: Action, delay: real, from: real)
    requires pick < |s.queue|
  {
    var job := s.queue[pick];
    && s'.queue == s.queue[..pick] + s.queue[pick + 1..] + [job.(scheduledFor := from + delay)]
    && s'.log == s.log + [ScheduleDecision(job.id, action, delay)]
    && s'.calls == s.calls && s'.finished == s.finished && s'.lost == s.lost
  }

  /** A job that is not due goes to the end of the queue as it is. One outside its window is put back for a
      minute, and one that the model holds back for as long as the model says; no limiter is asked. */
  lemma HeldBack(cfg: Config, s: State, t: Tick)
    requires t.pick < |s.queue| && !s.queue[t.pick].scheduledZoned
    ensures var job, s' := s.queue[t.pick], Iterate(cfg, s, t);
            && (job.scheduledFor > t.start + 1.0 ==>
                  s' == s.(queue := s.queue[..t.pick] + s.queue[t.pick + 1..] + [job]))
            && (job.scheduledFor <= t.start + 1.0 ==>
                  && (InTimeWindow(job, t.timeOfDay) == Some(false) ==>
                        && PutBack(s, s', t.pick, DelayedTimeWindow, 60.0, t.requeue)
                        && s'.targets == s.targets && s'.ips == s.ips)
                  && (InTimeWindow(job, t.timeOfDay) == Some(true) && t.mlDelay > 0.5 ==>
                        && PutBack(s, s', t.pick, DelayedMlSuggestion, t.mlDelay, t.requeue)
                        && s'.targets == s.targets && s'.ips == s.ips))
  {
    hide InTimeWindow, Admit;
  }

  /** A job that a limiter refuses is put back for five seconds. The domain's token is gone even when it is the
      source IP that refuses, and the IP's limiter is not asked when the domain refuses. */
  lemma RefusedByLimiter(cfg: Config, s: State, t: Tick)
    requires t.pick < |s.queue| && Iterate(cfg, s, t).calls == s.calls
    requires var job := s.queue[t.pick];
             && !job.scheduledZoned && job.scheduledFor - t.start <= 1.0
             && InTimeWindow(job, t.timeOfDay) == Some(true) && t.mlDelay <= 0.5
    ensures var job, s' := s.queue[t.pick], Iterate(cfg, s, t);
            var targets, ips := WithLimiter(cfg, s.targets, job.targetDomain, t.create),
                WithLimiter(cfg, s.ips, job.sourceIp, t.create);
            && PutBack(s, s', t.pick, DelayedRateLimit, 5.0, t.deny)
            && s'.targets == targets[job.targetDomain := Consumed(targets[job.targetDomain], 1.0, t.target)]
            && s'.ips == if Grants(targets[job.targetDomain], 1.0, t.target) then
                 ips[job.sourceIp := Consumed(ips[job.sourceIp], 1.0, t.ip)] else ips
  {
    hide Grants, Consumed, InTimeWindow, BackoffDelay, WithLimiter;
    WithLimiterHas(cfg, s.targets, s.queue[t.pick].targetDomain, t.create);
    WithLimiterHas(cfg, s.ips, s.queue[t.pick].sourceIp, t.create);
    assert |Iterate(cfg, s, t).calls| == |s.calls|;
  }

  // ---------- runs ----------

  datatype Event = Add(job: JobRecord) | Work(tick: Tick)

  ghost function After(cfg: Config, events: seq<Event>): State {
    if events == [] then INITIAL
    else
      var n := |events| - 1;
      var s := After(cfg, events[..n]);
      match events[n]
      case Add(job) => s.(queue := s.queue + [job])
      case Work(tick) => if tick.pick < |s.queue| then Iterate(cfg, s, tick) else s
  }

  ghost function Added(events: seq<Event>): seq<JobRecord> {
    if events == [] then []
    else
      var n := |events| - 1;
      Added(events[..n]) + (if events[n].Add? then [events[n].job] else [])
  }

  /** The last clock reading. */
  ghost function Clock(events: seq<Event>): Option<real> {
    if events == [] then None
    else
      var n := |events| - 1;
      if events[n].Work? then Some(events[n].tick.finish) else Clock(events[..n])
  }

  /** The clock does not go back, neither within an iteration nor from one to the next. */
  ghost predicate ClockForward(events: seq<Event>) {
    events == [] ||
    var n := |events| - 1;
    && ClockForward(events[..n])
    && (events[n].Work? ==>
          && events[n].tick.InOrder()
          && (Clock(events[..n]).Some? ==> Clock(events[..n]).value <= events[n].tick.start))
  }

  function Ids(jobs: seq<JobRecord>): (ids: seq<string>)
    ensures |ids| == |jobs|
    ensures forall i :: 0 <= i < |jobs| ==> ids[i] == jobs[i].id
  {
    seq(|jobs|, i requires 0 <= i < |jobs| => jobs[i].id)
  }

  /** A run: jobs come with ids of their own, the queue delivers a minimal element, the clock does
      not go back, and the jitter is drawn from its range. */
  ghost predicate IsRun(cfg: Config, events: seq<Event>) {
    ClockForward(events) &&
    (events == [] ||
     var n := |events| - 1;
     && IsRun(cfg, events[..n])
     && match events[n]
       case Add(job) => job.id !in Ids(Added(events[..n]))
       case Work(t) =>
         && MinimalAt(After(cfg, events[..n]).queue, t.pick)
         && 0.0 <= t.mlDelay
         && 0.0 <= t.jitter <= 0.5 * Pow2(After(cfg, events[..n]).queue[t.pick].attempts + 1) as real)
  }

  // ---------- conservation of jobs ----------

  ghost function Census(s: State): multiset<string> {
    multiset(Ids(s.queue)) + multiset(Ids(s.finished)) + multiset(Ids(s.lost))
  }

  lemma IdsConcat(a: seq<JobRecord>, b: seq<JobRecord>)
    ensures multiset(Ids(a + b)) == multiset(Ids(a)) + multiset(Ids(b))
  {
    assert Ids(a + b) == Ids(a) + Ids(b);
  }

  lemma IdsRemove(a: seq<JobRecord>, k: nat)
    requires k < |a|
    ensures multiset(Ids(a)) == multiset(Ids(RemoveAt(a, k))) + multiset{a[k].id}
  {
    assert a == a[..k] + ([a[k]] + a[k + 1..]);
    IdsConcat(a[..k], [a[k]] + a[k + 1..]);
    IdsConcat([a[k]], a[k + 1..]);
    IdsConcat(a[..k], a[k + 1..]);
    assert Ids([a[k]]) == [a[k].id];
  }

  lemma IdsOne(a: seq<JobRecord>, job: JobRecord)
    ensures multiset(Ids(a + [job])) == multiset(Ids(a)) + multiset{job.id}
  {
    IdsConcat(a, [job]);
    assert Ids([job]) == [job.id];
  }

  lemma MovesConserve(s: State, s': State, pick: nat, job': JobRecord, entry: seq<ScheduleDecision>)
    requires Moves(s, s', pick, job', entry)
    ensures Census(s') == Census(s)
  {
    hide RemoveAt, Ids;
    IdsRemove(s.queue, pick);
    IdsOne(RemoveAt(s.queue, pick), job');
    IdsOne(s.finished, job');
    IdsOne(s.lost, job');
  }

  /** After every iteration the jobs added are the jobs queued, executed and dropped. */
  lemma {:induction false} JobsConserved(cfg: Config, events: seq<Event>)
    ensures Census(After(cfg, events)) == multiset(Ids(Added(events)))
  {
    hide Iterate, Ids;
    if events == [] {
      IdsOfNone();
    } else {
      var n := |events| - 1;
      JobsConserved(cfg, events[..n]);
      var s := After(cfg, events[..n]);
      match events[n]
      case Add(job) =>
        IdsOne(s.queue, job);
        IdsOne(Added(events[..n]), job);
      case Work(t) =>
        assert Added(events) == Added(events[..n]);
        if t.pick < |s.queue| {
          var job', entry := IterateMoves(cfg, s, t);
          MovesConserve(s, Iterate(cfg, s, t), t.pick, job', entry);
        }
    }
  }

  lemma IdsOfNone()
    ensures Ids([]) == []
  {
  }

  // ---------- the audit log ----------

  ghost function Entries(log: seq<ScheduleDecision>, id: string, action: Action): nat {
    if log == [] then 0
    else
      var n := |log| - 1;
      Entries(log[..n], id, action) + (if log[n].jobId == id && log[n].action == action then 1 else 0)
  }

  /** The attempts of a job beyond those it came with are its "backoff" and "executed" entries. */
  ghost predicate Audited(log: seq<ScheduleDecision>, added: seq<JobRecord>, job: JobRecord) {
    forall a :: a in added && a.id == job.id ==>
      job.attempts == a.attempts + Entries(log, job.id, Backoff) + Entries(log, job.id, Executed)
  }

  ghost predicate LogMatches(s: State, added: seq<JobRecord>) {
    && (forall j :: j in s.queue || j in s.lost ==> Audited(s.log, added, j) && Entries(s.log, j.id, Executed) == 0)
    && (forall j :: j in s.finished ==> Audited(s.log, added, j) && Entries(s.log, j.id, Executed) == 1)
    && (forall id, action :: id !in Ids(added) ==> Entries(s.log, id, action) == 0)
    && Census(s) == multiset(Ids(added))
    && (forall id :: Census(s)[id] <= 1)
  }

  lemma EntriesOfOthers(log: seq<ScheduleDecision>, entry: seq<ScheduleDecision>, id: string)
    requires entry == [] || (|entry| == 1 && entry[0].jobId != id)
    ensures forall action :: Entries(log + entry, id, action) == Entries(log, id, action)
  {
    if entry == [] {
      assert log + entry == log;
    } else {
      assert (log + entry)[..|log|] == log;
    }
  }

  lemma EntriesOfOne(log: seq<ScheduleDecision>, entry: seq<ScheduleDecision>, id: string)
    requires |entry| == 1 && entry[0].jobId == id
    ensures forall action :: Entries(log + entry, id, action)
              == Entries(log, id, action) + (if action == entry[0].action then 1 else 0)
  {
    assert (log + entry)[..|log|] == log;
  }

  lemma InIds(a: seq<JobRecord>, j: JobRecord)
    requires j in a
    ensures multiset(Ids(a))[j.id] >= 1
  {
    var i :| 0 <= i < |a| && a[i] == j;
    assert Ids(a)[i] == j.id;
    assert j.id in Ids(a);
  }

  /** With ids of their own, no other record has the id of the job that was taken. */
  lemma OthersDiffer(s: State, pick: nat, k: JobRecord)
    requires pick < |s.queue| && forall id :: Census(s)[id] <= 1
    requires k in RemoveAt(s.queue, pick) || k in s.finished || k in s.lost
    ensures k.id != s.queue[pick].id
  {
    hide Ids, RemoveAt;
    IdsRemove(s.queue, pick);
    if k in RemoveAt(s.queue, pick) {
      InIds(RemoveAt(s.queue, pick), k);
    } else if k in s.finished {
      InIds(s.finished, k);
    } else {
      InIds(s.lost, k);
    }
    var others := multiset(Ids(RemoveAt(s.queue, pick)))[k.id] + multiset(Ids(s.finished))[k.id]
          + multiset(Ids(s.lost))[k.id];
    assert others >= 1;
    assert Census(s)[k.id] == others + (if k.id == s.queue[pick].id then 1 else 0);
  }

  lemma OtherStaysAudited(s: State, added: seq<JobRecord>, pick: nat, k: JobRecord, entry: seq<ScheduleDecision>)
    requires LogMatches(s, added) && pick < |s.queue|
    requires k in RemoveAt(s.queue, pick) || k in s.finished || k in s.lost
    requires entry == [] || (|entry| == 1 && entry[0].jobId == s.queue[pick].id)
    ensures forall action :: Entries(s.log + entry, k.id, action) == Entries(s.log, k.id, action)
  {
    OthersDiffer(s, pick, k);
    EntriesOfOthers(s.log, entry, k.id);
  }

  lemma MovedStaysAudited(s: State, s': State, added: seq<JobRecord>, pick: nat, job': JobRecord,
                          entry: seq<ScheduleDecision>)
    requires LogMatches(s, added) && Moves(s, s', pick, job', entry)
    ensures Audited(s'.log, added, job')
    ensures Entries(s'.log, job'.id, Executed) == if |entry| == 1 && entry[0].action == Executed then 1 else 0
  {
    hide RemoveAt;
    assert s.queue[pick] in s.queue;
    assert Audited(s.log, added, s.queue[pick]);
    if entry == [] {
      assert s.log + entry == s.log;
    } else {
      EntriesOfOne(s.log, entry, job'.id);
    }
  }

  lemma RemovedIn<T>(a: seq<T>, k: nat, x: T)
    requires k < |a| && x in RemoveAt(a, k)
    ensures x in a
  {
  }

  /** The records that did not move keep what the log says of them. */
  lemma {:induction false} OthersStay(s: State, s': State, added: seq<JobRecord>, pick: nat, job': JobRecord,
                                      entry: seq<ScheduleDecision>)
    requires LogMatches(s, added) && Moves(s, s', pick, job', entry)
    ensures forall k :: k in RemoveAt(s.queue, pick) || k in s.lost ==>
              Audited(s'.log, added, k) && Entries(s'.log, k.id, Executed) == 0
    ensures forall k :: k in s.finished ==> Audited(s'.log, added, k) && Entries(s'.log, k.id, Executed) == 1
  {
    hide RemoveAt;
    forall k | k in RemoveAt(s.queue, pick) || k in s.lost || k in s.finished
      ensures Audited(s'.log, added, k)
      ensures Entries(s'.log, k.id, Executed) == Entries(s.log, k.id, Executed)
    {
      OtherStaysAudited(s, added, pick, k, entry);
      if k in RemoveAt(s.queue, pick) {
        RemovedIn(s.queue, pick, k);
      }
      assert Audited(s.log, added, k);
    }
    forall k | k in RemoveAt(s.queue, pick)
      ensures Entries(s.log, k.id, Executed) == 0
    {
      RemovedIn(s.queue, pick, k);
    }
  }

  lemma PickedIsAdded(s: State, added: seq<JobRecord>, pick: nat)
    requires LogMatches(s, added) && pick < |s.queue|
    ensures s.queue[pick].id in Ids(added)
  {
    InIds(s.queue, s.queue[pick]);
    assert s.queue[pick].id in multiset(Ids(added));
  }

  lemma MoveKeepsLog(s: State, s': State, added: seq<JobRecord>, pick: nat, job': JobRecord,
                     entry: seq<ScheduleDecision>)
    requires LogMatches(s, added) && Moves(s, s', pick, job', entry)
    ensures LogMatches(s', added)
  {
    hide Census, RemoveAt, Audited, Entries, Ids;
    MovesConserve(s, s', pick, job', entry);
    MovedStaysAudited(s, s', added, pick, job', entry);
    OthersStay(s, s', added, pick, job', entry);
    PickedIsAdded(s, added, pick);
    forall id, action | id !in Ids(added)
      ensures Entries(s'.log, id, action) == 0
    {
      EntriesOfOthers(s.log, entry, id);
    }
  }

  lemma NotAddedYet(s: State, added: seq<JobRecord>, job: JobRecord, j: JobRecord)
    requires LogMatches(s, added) && job.id !in Ids(added)
    requires j in s.queue || j in s.lost || j in s.finished
    ensures j.id != job.id
  {
    hide Audited, Entries;
    if j in s.queue {
      InIds(s.queue, j);
    } else if j in s.lost {
      InIds(s.lost, j);
    } else {
      InIds(s.finished, j);
    }
    assert Census(s)[j.id] >= 1;
    assert j.id in Ids(added);
  }

  lemma AuditedLater(log: seq<ScheduleDecision>, added: seq<JobRecord>, job: JobRecord, j: JobRecord)
    requires Audited(log, added, j) && j.id != job.id
    ensures Audited(log, added + [job], j)
  {
  }

  lemma NewIsAudited(s: State, added: seq<JobRecord>, job: JobRecord)
    requires LogMatches(s, added) && job.id !in Ids(added)
    ensures Audited(s.log, added + [job], job) && Entries(s.log, job.id, Executed) == 0
  {
    forall a | a in added && a.id == job.id
      ensures false
    {
      InIds(added, a);
    }
  }

  lemma AddCensus(s: State, added: seq<JobRecord>, job: JobRecord)
    requires LogMatches(s, added) && job.id !in Ids(added)
    ensures Census(s.(queue := s.queue + [job])) == multiset(Ids(added + [job]))
    ensures forall id :: Census(s.(queue := s.queue + [job]))[id] <= 1
    ensures forall id :: id !in Ids(added + [job]) ==> id !in Ids(added)
  {
    hide Audited, Entries;
    IdsOne(s.queue, job);
    IdsOne(added, job);
    assert Ids(added + [job]) == Ids(added) + [job.id];
    assert multiset(Ids(added))[job.id] == 0;
  }

  lemma AddKeepsLog(s: State, added: seq<JobRecord>, job: JobRecord)
    requires LogMatches(s, added) && job.id !in Ids(added)
    ensures LogMatches(s.(queue := s.queue + [job]), added + [job])
  {
    hide Audited, Entries, Census, Ids;
    forall j | j in s.queue || j in s.lost || j in s.finished
      ensures Audited(s.log, added + [job], j)
    {
      NotAddedYet(s, added, job, j);
      AuditedLater(s.log, added, job, j);
    }
    NewIsAudited(s, added, job);
    AddCensus(s, added, job);
  }

  /** In every run, each job's attempts are those it came with plus its "backoff" and "executed"
      entries; exactly the executed jobs have an "executed" entry, and they have one. */
  lemma {:induction false} LogAccountsForAttempts(cfg: Config, events: seq<Event>)
    requires IsRun(cfg, events)
    ensures LogMatches(After(cfg, events), Added(events))
  {
    hide Iterate, LogMatches;
    if events == [] {
      NothingLogged();
    } else {
      var n := |events| - 1;
      LogAccountsForAttempts(cfg, events[..n]);
      var s := After(cfg, events[..n]);
      match events[n]
      case Add(job) =>
        AddKeepsLog(s, Added(events[..n]), job);
      case Work(t) =>
        assert Added(events) == Added(events[..n]);
        var job', entry := IterateMoves(cfg, s, t);
        MoveKeepsLog(s, Iterate(cfg, s, t), Added(events), t.pick, job', entry);
    }
  }

  lemma NothingLogged()
    ensures LogMatches(INITIAL, [])
  {
  }

  // ---------- which jobs are dropped ----------

  /** The record is that of an added job, perhaps with another time and more attempts. */
  ghost predicate ComesFrom(added: seq<JobRecord>, j: JobRecord) {
    exists a :: a in added && SameJob(a, j)
  }

  ghost predicate AllComeFrom(added: seq<JobRecord>, jobs: seq<JobRecord>) {
    forall j :: j in jobs ==> ComesFrom(added, j)
  }

  lemma ComesFromMore(added: seq<JobRecord>, job: JobRecord, jobs: seq<JobRecord>)
    requires AllComeFrom(added, jobs)
    ensures AllComeFrom(added + [job], jobs)
  {
    forall j | j in jobs
      ensures ComesFrom(added + [job], j)
    {
      var a :| a in added && SameJob(a, j);
      assert a in added + [job];
    }
  }

  lemma MovesComeFrom(added: seq<JobRecord>, s: State, s': State, pick: nat, job': JobRecord,
                      entry: seq<ScheduleDecision>)
    requires Moves(s, s', pick, job', entry)
    requires AllComeFrom(added, s.queue) && AllComeFrom(added, s.finished) && AllComeFrom(added, s.lost)
    ensures AllComeFrom(added, s'.queue) && AllComeFrom(added, s'.finished) && AllComeFrom(added, s'.lost)
  {
    assert ComesFrom(added, s.queue[pick]);
    assert ComesFrom(added, job');
  }

  /** Every job in the scheduler was added, and its window never changes. */
  lemma {:induction false} JobsComeFromAdded(cfg: Config, events: seq<Event>)
    ensures var s := After(cfg, events);
            && AllComeFrom(Added(events), s.queue) && AllComeFrom(Added(events), s.finished)
                && AllComeFrom(Added(events), s.lost)
  {
    hide Iterate, AllComeFrom, Moves;
    if events == [] {
      NothingComes();
    } else {
      var n := |events| - 1;
      JobsComeFromAdded(cfg, events[..n]);
      var s := After(cfg, events[..n]);
      match events[n]
      case Add(job) =>
        ComesFromMore(Added(events[..n]), job, s.queue);
        ComesFromMore(Added(events[..n]), job, s.finished);
        ComesFromMore(Added(events[..n]), job, s.lost);
        NewComes(Added(events[..n]), job, s.queue);
      case Work(t) =>
        assert Added(events) == Added(events[..n]);
        if t.pick < |s.queue| {
          var job', entry := IterateMoves(cfg, s, t);
          MovesComeFrom(Added(events), s, Iterate(cfg, s, t), t.pick, job', entry);
        }
    }
  }

  lemma NothingComes()
    ensures AllComeFrom([], [])
  {
  }

  lemma NewComes(added: seq<JobRecord>, job: JobRecord, queue: seq<JobRecord>)
    requires AllComeFrom(added + [job], queue)
    ensures AllComeFrom(added + [job], queue + [job])
  {
    assert job in added + [job];
  }

  /** A comparison of the job's times raises. */
  ghost predicate Unusable(job: JobRecord) {
    job.scheduledZoned || WindowRaises(job)
  }

  /** An iteration has taken the job with this id: at any time, or when it was due. */
  ghost predicate Taken(cfg: Config, events: seq<Event>, id: string, anyTime: bool) {
    events != [] &&
    var n := |events| - 1;
    var s := After(cfg, events[..n]);
    || Taken(cfg, events[..n], id, anyTime)
    || (events[n].Work? && events[n].tick.pick < |s.queue| && s.queue[events[n].tick.pick].id == id
        && (anyTime || s.queue[events[n].tick.pick].scheduledFor - events[n].tick.start <= 1.0))
  }

  /** With ids of their own, an id names one added job. */
  lemma {:induction false} AddedAreDistinct(cfg: Config, events: seq<Event>, a: JobRecord, b: JobRecord)
    requires IsRun(cfg, events) && a in Added(events) && b in Added(events) && a.id == b.id
    ensures a == b
  {
    hide Iterate, MinimalAt, Tick.InOrder;
    var n := |events| - 1;
    if a in Added(events[..n]) && b in Added(events[..n]) {
      AddedAreDistinct(cfg, events[..n], a, b);
    } else if a in Added(events[..n]) {
      InIds(Added(events[..n]), a);
    } else if b in Added(events[..n]) {
      InIds(Added(events[..n]), b);
    }
  }

  lemma LostWasAdded(cfg: Config, events: seq<Event>, id: string, anyTime: bool)
    requires id in Ids(After(cfg, events).lost) || Taken(cfg, events, id, anyTime)
    ensures id in Ids(Added(events))
    decreases |events|
  {
    hide Iterate, Ids;
    JobsConserved(cfg, events);
    if id in Ids(After(cfg, events).lost) {
      assert id in multiset(Ids(Added(events)));
    } else {
      var n := |events| - 1;
      JobsConserved(cfg, events[..n]);
      AddedGrows(events);
      if Taken(cfg, events[..n], id, anyTime) {
        LostWasAdded(cfg, events[..n], id, anyTime);
      } else {
        InIds(After(cfg, events[..n]).queue, After(cfg, events[..n]).queue[events[n].tick.pick]);
        assert id in multiset(Ids(Added(events[..n])));
      }
    }
  }

  lemma AddedGrows(events: seq<Event>)
    requires events != []
    ensures forall id :: id in Ids(Added(events[..|events| - 1])) ==> id in Ids(Added(events))
  {
    var before := Added(events[..|events| - 1]);
    assert forall i :: 0 <= i < |before| ==> Ids(Added(events))[i] == Ids(before)[i];
  }

  lemma TakenIsAdded(cfg: Config, events: seq<Event>, a: JobRecord, j: JobRecord)
    requires IsRun(cfg, events) && a in Added(events) && j in After(cfg, events).queue && j.id == a.id
    ensures SameJob(a, j)
  {
    hide IsRun, After, Added;
    JobsComeFromAdded(cfg, events);
    assert ComesFrom(Added(events), j);
    var b :| b in Added(events) && SameJob(b, j);
    AddedAreDistinct(cfg, events, a, b);
  }

  lemma InIdsOfMore(jobs: seq<JobRecord>, job: JobRecord, id: string)
    ensures id in Ids(jobs + [job]) <==> id in Ids(jobs) || id == job.id
  {
    assert Ids(jobs + [job]) == Ids(jobs) + [job.id];
  }

  /** An added job is dropped if and only if its time carries a zone and an iteration has taken it, or its
      window raises and an iteration has taken it when it was due. */
  lemma {:induction false} DroppedIff(cfg: Config, events: seq<Event>, a: JobRecord)
    requires IsRun(cfg, events) && a in Added(events)
    ensures a.id in Ids(After(cfg, events).lost) <==> Unusable(a) && Taken(cfg, events, a.id, a.scheduledZoned)
  {
    hide Iterate, Ids, WindowRaises, ClockForward;
    var n := |events| - 1;
    var s := After(cfg, events[..n]);
    match events[n]
    case Add(job) =>
      if a in Added(events[..n]) {
        DroppedIff(cfg, events[..n], a);
      } else if a.id in Ids(s.lost) || Taken(cfg, events[..n], a.id, a.scheduledZoned) {
        LostWasAdded(cfg, events[..n], a.id, a.scheduledZoned);
      }
    case Work(t) =>
      DroppedIff(cfg, events[..n], a);
      LostIff(cfg, s, t);
      InIdsOfMore(s.lost, s.queue[t.pick], a.id);
      if s.queue[t.pick].id == a.id {
        TakenIsAdded(cfg, events[..n], a, s.queue[t.pick]);
        SameWindowRaises(a, s.queue[t.pick]);
      }
  }

  lemma SameWindowRaises(a: JobRecord, b: JobRecord)
    requires SameJob(a, b)
    ensures WindowRaises(a) <==> WindowRaises(b)
  {
  }

  /** When no comparison of an added job's times raises, none is dropped: the jobs added are the jobs queued
      and the jobs executed. */
  lemma UsableJobsConserved(cfg: Config, events: seq<Event>)
    requires forall a :: a in Added(events) ==> !Unusable(a)
    ensures After(cfg, events).lost == []
    ensures multiset(Ids(After(cfg, events).queue)) + multiset(Ids(After(cfg, events).finished))
         == multiset(Ids(Added(events)))
  {
    hide After, Added, Ids;
    var s := After(cfg, events);
    JobsConserved(cfg, events);
    LostAreUnusable(cfg, events);
    JobsComeFromAdded(cfg, events);
    if s.lost != [] {
      assert s.lost[0] in s.lost;
      assert ComesFrom(Added(events), s.lost[0]);
    }
    IdsOfNone();
  }

  lemma {:induction false} LostAreUnusable(cfg: Config, events: seq<Event>)
    ensures forall j :: j in After(cfg, events).lost ==> Unusable(j)
    ensures forall j :: j in After(cfg, events).finished ==> !Unusable(j)
  {
    hide Iterate, WindowRaises;
    if events != [] {
      var n := |events| - 1;
      LostAreUnusable(cfg, events[..n]);
      var s := After(cfg, events[..n]);
      if events[n].Work? && events[n].tick.pick < |s.queue| {
        LostIff(cfg, s, events[n].tick);
        FinishedAreUsable(cfg, s, events[n].tick);
      }
    }
  }

  lemma FinishedAreUsable(cfg: Config, s: State, t: Tick)
    requires t.pick < |s.queue|
    ensures forall j :: j in Iterate(cfg, s, t).finished ==> j in s.finished || !Unusable(j)
  {
    hide Grants, Consumed, WithLimiter, BackoffDelay, RemoveAt;
  }

  /** A job added with times whose comparison raises is never executed. */
  lemma UnusableNeverExecuted(cfg: Config, events: seq<Event>, a: JobRecord)
    requires IsRun(cfg, events) && a in Added(events) && Unusable(a)
    ensures a.id !in Ids(After(cfg, events).finished)
  {
    hide After, Added, IsRun;
    var s := After(cfg, events);
    JobsComeFromAdded(cfg, events);
    LostAreUnusable(cfg, events);
    if a.id in Ids(s.finished) {
      var i :| 0 <= i < |s.finished| && s.finished[i].id == a.id;
      var j := s.finished[i];
      assert j in s.finished;
      assert ComesFrom(Added(events), j);
      var b :| b in Added(events) && SameJob(b, j);
      SameWindowRaises(b, j);
      AddedAreDistinct(cfg, events, a, b);
    }
  }

  // ---------- a job that is not due ----------

  /** The job goes before all others in the queue. */
  ghost predicate Foremost(a: JobRecord, queue: seq<JobRecord>) {
    a in queue && forall j :: j in queue ==> j == a || Less(a, j)
  }

  /** The jobs that are added go behind `a`, and every iteration finds `a` more than a second ahead. */
  ghost predicate BehindAndEarly(a: JobRecord, events: seq<Event>) {
    forall i :: 0 <= i < |events| ==>
      match events[i]
      case Add(job) => Less(a, job)
      case Work(t) => a.scheduledFor - t.start > 1.0
  }

  /** The queue delivers a minimal element to every iteration after the first `from` events. */
  ghost predicate DeliversMinimal(cfg: Config, events: seq<Event>, from: nat) {
    forall i :: from <= i < |events| && events[i].Work? ==>
             MinimalAt(After(cfg, events[..i]).queue, events[i].tick.pick)
  }

  lemma ForemostIsDelivered(a: JobRecord, queue: seq<JobRecord>, pick: nat)
    requires Foremost(a, queue) && MinimalAt(queue, pick)
    ensures queue[pick] == a
  {
    var i :| 0 <= i < |queue| && queue[i] == a;
    assert queue[pick] in queue;
  }

  /** Taking the foremost job, and putting it back because it is not due, only moves it to the end. */
  lemma ForemostPutBack(cfg: Config, s: State, t: Tick, a: JobRecord)
    requires Foremost(a, s.queue) && MinimalAt(s.queue, t.pick) && !a.scheduledZoned && a.scheduledFor - t.start > 1.0
    ensures Iterate(cfg, s, t) == s.(queue := RemoveAt(s.queue, t.pick) + [a])
    ensures multiset(RemoveAt(s.queue, t.pick) + [a]) == multiset(s.queue)
    ensures Foremost(a, RemoveAt(s.queue, t.pick) + [a])
  {
    ForemostIsDelivered(a, s.queue, t.pick);
    MovedToEnd(s.queue, t.pick);
    ForemostOfSame(a, s.queue, RemoveAt(s.queue, t.pick) + [a]);
    hide RemoveAt, Foremost, MinimalAt, Admit, Less;
  }

  lemma MovedToEnd(queue: seq<JobRecord>, k: nat)
    requires k < |queue|
    ensures multiset(RemoveAt(queue, k) + [queue[k]]) == multiset(queue)
  {
    assert queue == queue[..k] + [queue[k]] + queue[k + 1..];
  }

  lemma ForemostOfSame(a: JobRecord, queue: seq<JobRecord>, queue': seq<JobRecord>)
    requires Foremost(a, queue) && multiset(queue') == multiset(queue)
    ensures Foremost(a, queue')
  {
    hide Less;
    assert a in multiset(queue');
    forall j | j in queue'
      ensures j == a || Less(a, j)
    {
      assert j in multiset(queue);
    }
  }

  /** Nothing but the queue has changed: it has gained the jobs added, and `a` is still before them. */
  ghost predicate HeldUp(a: JobRecord, s: State, s': State, added: seq<JobRecord>) {
    s' == s.(queue := s'.queue) && multiset(s'.queue) == multiset(s.queue) + multiset(added) && Foremost(a, s'.queue)
  }

  lemma HeldUpByPutBack(cfg: Config, s: State, s': State, added: seq<JobRecord>, t: Tick, a: JobRecord)
    requires HeldUp(a, s, s', added) && MinimalAt(s'.queue, t.pick) && !a.scheduledZoned
    requires a.scheduledFor - t.start > 1.0
    ensures HeldUp(a, s, Iterate(cfg, s', t), added)
  {
    hide Iterate, RemoveAt, Less;
    ForemostPutBack(cfg, s', t, a);
  }

  lemma HeldUpByAdd(s: State, s': State, added: seq<JobRecord>, job: JobRecord, a: JobRecord)
    requires HeldUp(a, s, s', added) && Less(a, job)
    ensures HeldUp(a, s, s'.(queue := s'.queue + [job]), added + [job])
  {
    hide Less;
  }

  lemma LastEvent(cfg: Config, before: seq<Event>, e: Event)
    ensures e.Add? ==> After(cfg, before + [e]) == After(cfg, before).(queue := After(cfg, before).queue + [e.job])
    ensures e.Work? && e.tick.pick < |After(cfg, before).queue| ==>
              After(cfg, before + [e]) == Iterate(cfg, After(cfg, before), e.tick)
    ensures Added(before + [e]) == if e.Add? then Added(before) + [e.job] else Added(before)
  {
    hide Iterate;
    assert (before + [e])[..|before|] == before;
  }

  /** A foremost job that is more than a second ahead holds up all others, however long they have been due:
      nothing is executed, logged or dropped, and no limiter is asked, until its time comes. */
  lemma {:induction false} ForemostJobBlocks(cfg: Config, events: seq<Event>, later: seq<Event>, a: JobRecord)
    requires Foremost(a, After(cfg, events).queue) && !a.scheduledZoned
    requires BehindAndEarly(a, later) && DeliversMinimal(cfg, events + later, |events|)
    ensures HeldUp(a, After(cfg, events), After(cfg, events + later), Added(later))
    decreases |later|
  {
    hide Iterate, Foremost, Less, HeldUp, After, Added, DeliversMinimal;
    if later == [] {
      NothingHeldUp(a, After(cfg, events));
      assert events + later == events;
    } else {
      var n := |later| - 1;
      var front, e := later[..n], later[n];
      assert later == front + [e] && events + later == events + front + [e];
      PrefixDelivers(cfg, events + later, |events|, |events| + n);
      assert (events + later)[..|events| + n] == events + front;
      ForemostJobBlocks(cfg, events, front, a);
      LastEvent(cfg, events + front, e);
      LastEvent(cfg, front, e);
      if e.Add? {
        HeldUpByAdd(After(cfg, events), After(cfg, events + front), Added(front), e.job, a);
      } else {
        HeldUpByPutBack(cfg, After(cfg, events), After(cfg, events + front), Added(front), e.tick, a);
      }
    }
  }

  lemma NothingHeldUp(a: JobRecord, s: State)
    requires Foremost(a, s.queue)
    ensures HeldUp(a, s, s, Added([]))
  {
  }

  lemma PrefixDelivers(cfg: Config, events: seq<Event>, from: nat, n: nat)
    requires DeliversMinimal(cfg, events, from) && from <= n < |events|
    ensures DeliversMinimal(cfg, events[..n], from)
    ensures events[n].Work? ==> MinimalAt(After(cfg, events[..n]).queue, events[n].tick.pick)
  {
    hide After, MinimalAt;
    forall i | from <= i < n && events[i].Work?
      ensures MinimalAt(After(cfg, events[..n][..i]).queue, events[i].tick.pick)
    {
      assert events[..n][..i] == events[..i];
    }
  }

  // ---------- the pace of executor calls ----------

  ghost function TargetTimes(calls: seq<Call>, domain: string): seq<real> {
    if calls == [] then []
    else
      var n := |calls| - 1;
      TargetTimes(calls[..n], domain) + (if calls[n].targetDomain == domain then [calls[n].targetTime] else [])
  }

  ghost function IpTimes(calls: seq<Call>, ip: string): seq<real> {
    if calls == [] then []
    else
      var n := |calls| - 1;
      IpTimes(calls[..n], ip) + (if calls[n].sourceIp == ip then [calls[n].ipTime] else [])
  }

  /** What is known about one key of a dictionary of limiters. */
  ghost predicate KeyPaced(cfg: Config, limiters: map<string, Bucket>, key: string, times: seq<real>) {
    if key in limiters then
      && Paced(limiters[key], times)
      && limiters[key].capacity == cfg.capacity && limiters[key].refillRate == cfg.refillRate
    else times == []
  }

  ghost predicate AllPaced(cfg: Config, s: State) {
    && (forall d :: KeyPaced(cfg, s.targets, d, TargetTimes(s.calls, d)))
    && (forall ip :: KeyPaced(cfg, s.ips, ip, IpTimes(s.calls, ip)))
  }

  ghost predicate ValidConfig(cfg: Config) {
    0.0 <= cfg.capacity && 0.0 <= cfg.refillRate
  }

  /** Creating a limiter that is missing. */
  lemma CreatePaced(cfg: Config, limiters: map<string, Bucket>, key: string, k: string, times: seq<real>, now: real)
    requires ValidConfig(cfg) && KeyPaced(cfg, limiters, k, times)
    ensures KeyPaced(cfg, WithLimiter(cfg, limiters, key, now), k, times)
  {
    hide Paced;
    NewBucketPaced(cfg.capacity, cfg.refillRate, now);
  }

  /** A request to one key whose grant is not used for a call. */
  lemma RequestPaced(cfg: Config, limiters: map<string, Bucket>, key: string, k: string, times: seq<real>, now: real)
    requires key in limiters && KeyPaced(cfg, limiters, k, times)
    ensures KeyPaced(cfg, limiters[key := Consumed(limiters[key], 1.0, now)], k, times)
  {
    hide Paced, Refill;
    if k == key {
      ConsumePaced(limiters[key], times, now);
      ConsumedKeeps(limiters[key], now);
    }
  }

  /** A request whose grant is used for a call. */
  lemma UsedPaced(cfg: Config, limiters: map<string, Bucket>, key: string, k: string, times: seq<real>, now: real)
    requires key in limiters && Grants(limiters[key], 1.0, now) && KeyPaced(cfg, limiters, k, times)
    ensures KeyPaced(cfg, limiters[key := Consumed(limiters[key], 1.0, now)], k, if k == key then times + [now]
                     else times)
  {
    hide Paced, Refill, Grants;
    if k == key {
      GrantPaced(limiters[key], times, now);
      ConsumedKeeps(limiters[key], now);
    }
  }

  lemma ConsumedKeeps(b: Bucket, now: real)
    ensures Consumed(b, 1.0, now).lastRefill == now
    ensures Consumed(b, 1.0, now).capacity == b.capacity && Consumed(b, 1.0, now).refillRate == b.refillRate
  {
  }

  lemma TimesGrow(calls: seq<Call>, call: Call)
    ensures forall d :: TargetTimes(calls + [call], d)
              == if d == call.targetDomain then TargetTimes(calls, d) + [call.targetTime] else TargetTimes(calls, d)
    ensures forall ip :: IpTimes(calls + [call], ip)
              == if ip == call.sourceIp then IpTimes(calls, ip) + [call.ipTime] else IpTimes(calls, ip)
  {
    assert (calls + [call])[..|calls|] == calls;
    forall d
      ensures TargetTimes(calls + [call], d)
           == if d == call.targetDomain then TargetTimes(calls, d) + [call.targetTime] else TargetTimes(calls, d)
    {
      assert TargetTimes(calls, d) + [] == TargetTimes(calls, d);
    }
    forall ip
      ensures IpTimes(calls + [call], ip)
           == if ip == call.sourceIp then IpTimes(calls, ip) + [call.ipTime] else IpTimes(calls, ip)
    {
      assert IpTimes(calls, ip) + [] == IpTimes(calls, ip);
    }
  }

  /** What an iteration does to the limiters and the calls. */
  ghost predicate Paces(cfg: Config, s: State, s': State, t: Tick, domain: string, ip: string) {
    var targets, ips := WithLimiter(cfg, s.targets, domain, t.create), WithLimiter(cfg, s.ips, ip, t.create);
    || (s'.targets == s.targets && s'.ips == s.ips && s'.calls == s.calls)
    || (s'.targets == targets[domain := Consumed(targets[domain], 1.0, t.target)] && s'.ips == ips
        && s'.calls == s.calls)
    || (s'.targets == targets[domain := Consumed(targets[domain], 1.0, t.target)]
        && s'.ips == ips[ip := Consumed(ips[ip], 1.0, t.ip)] && s'.calls == s.calls)
    || (&& s'.targets == targets[domain := Consumed(targets[domain], 1.0, t.target)]
        && s'.ips == ips[ip := Consumed(ips[ip], 1.0, t.ip)]
        && Grants(targets[domain], 1.0, t.target) && Grants(ips[ip], 1.0, t.ip)
        && exists id :: s'.calls == s.calls + [Call(id, domain, ip, t.target, t.ip, t.enter)])
  }

  lemma IteratePaces(cfg: Config, s: State, t: Tick)
    requires t.pick < |s.queue|
    ensures Paces(cfg, s, Iterate(cfg, s, t), t, s.queue[t.pick].targetDomain, s.queue[t.pick].sourceIp)
  {
    hide Grants, Consumed, BackoffDelay, InTimeWindow, RemoveAt;
  }

  lemma TargetsStayPaced(cfg: Config, s: State, s': State, t: Tick, domain: string, ip: string, d: string)
    requires ValidConfig(cfg) && Paces(cfg, s, s', t, domain, ip)
    requires KeyPaced(cfg, s.targets, d, TargetTimes(s.calls, d))
    ensures KeyPaced(cfg, s'.targets, d, TargetTimes(s'.calls, d))
  {
    hide KeyPaced, Grants, Consumed, WithLimiter;
    var times := TargetTimes(s.calls, d);
    var targets := WithLimiter(cfg, s.targets, domain, t.create);
    WithLimiterHas(cfg, s.targets, domain, t.create);
    CreatePaced(cfg, s.targets, domain, d, times, t.create);
    RequestPaced(cfg, targets, domain, d, times, t.target);
    if s'.calls != s.calls {
      var id :| s'.calls == s.calls + [Call(id, domain, ip, t.target, t.ip, t.enter)];
      TimesGrow(s.calls, Call(id, domain, ip, t.target, t.ip, t.enter));
      UsedPaced(cfg, targets, domain, d, times, t.target);
    }
  }

  lemma IpsStayPaced(cfg: Config, s: State, s': State, t: Tick, domain: string, ip: string, k: string)
    requires ValidConfig(cfg) && Paces(cfg, s, s', t, domain, ip)
    requires KeyPaced(cfg, s.ips, k, IpTimes(s.calls, k))
    ensures KeyPaced(cfg, s'.ips, k, IpTimes(s'.calls, k))
  {
    hide KeyPaced, Grants, Consumed, WithLimiter;
    var times := IpTimes(s.calls, k);
    var ips := WithLimiter(cfg, s.ips, ip, t.create);
    WithLimiterHas(cfg, s.ips, ip, t.create);
    WithLimiterHas(cfg, s.targets, domain, t.create);
    CreatePaced(cfg, s.ips, ip, k, times, t.create);
    RequestPaced(cfg, ips, ip, k, times, t.ip);
    if s'.calls != s.calls {
      var id :| s'.calls == s.calls + [Call(id, domain, ip, t.target, t.ip, t.enter)];
      TimesGrow(s.calls, Call(id, domain, ip, t.target, t.ip, t.enter));
      UsedPaced(cfg, ips, ip, k, times, t.ip);
    }
  }

  lemma {:induction false} RunIsPaced(cfg: Config, events: seq<Event>)
    requires ValidConfig(cfg)
    ensures AllPaced(cfg, After(cfg, events))
    decreases |events|
  {
    hide KeyPaced, Iterate, Paces, TargetTimes, IpTimes;
    if events == [] {
      NothingPaced(cfg);
    } else {
      var n := |events| - 1;
      var s, s' := After(cfg, events[..n]), After(cfg, events);
      RunIsPaced(cfg, events[..n]);
      if events[n].Work? && events[n].tick.pick < |s.queue| {
        var t := events[n].tick;
        IteratePaces(cfg, s, t);
        var domain, ip := s.queue[t.pick].targetDomain, s.queue[t.pick].sourceIp;
        forall d
          ensures KeyPaced(cfg, s'.targets, d, TargetTimes(s'.calls, d))
        {
          TargetsStayPaced(cfg, s, s', t, domain, ip, d);
        }
        forall k
          ensures KeyPaced(cfg, s'.ips, k, IpTimes(s'.calls, k))
        {
          IpsStayPaced(cfg, s, s', t, domain, ip, k);
        }
      }
    }
  }

  lemma NothingPaced(cfg: Config)
    ensures AllPaced(cfg, INITIAL)
  {
    hide Paced;
  }

  lemma KeyWithinBudget(cfg: Config, limiters: map<string, Bucket>, key: string, times: seq<real>)
    requires ValidConfig(cfg) && KeyPaced(cfg, limiters, key, times)
    ensures WindowBound(cfg.capacity, cfg.refillRate, times)
  {
    hide Earned;
    if key !in limiters {
      NewBucketPaced(cfg.capacity, cfg.refillRate, 0.0);
    }
  }

  lemma TimesBounded(cfg: Config, events: seq<Event>, key: string)
    requires ValidConfig(cfg)
    ensures WindowBound(cfg.capacity, cfg.refillRate, TargetTimes(After(cfg, events).calls, key))
    ensures WindowBound(cfg.capacity, cfg.refillRate, IpTimes(After(cfg, events).calls, key))
  {
    hide After, TargetTimes, IpTimes, KeyPaced, WindowBound;
    RunIsPaced(cfg, events);
    var s := After(cfg, events);
    KeyWithinBudget(cfg, s.targets, key, TargetTimes(s.calls, key));
    KeyWithinBudget(cfg, s.ips, key, IpTimes(s.calls, key));
  }

  /** Over any events, and whatever the clock reads, the executor calls admitted in any window of time for
      one target domain, and those for one source IP, are at most the capacity plus what the refill rate
      is worth over the window. */
  lemma CallsWithinBudget(cfg: Config, events: seq<Event>, key: string, t1: real, t2: real)
    requires ValidConfig(cfg) && t1 <= t2
    ensures CountIn(TargetTimes(After(cfg, events).calls, key), t1, t2) as real
              <= cfg.capacity + cfg.refillRate * (t2 - t1)
    ensures CountIn(IpTimes(After(cfg, events).calls, key), t1, t2) as real
              <= cfg.capacity + cfg.refillRate * (t2 - t1)
  {
    hide After, TargetTimes, IpTimes, CountIn;
    TimesBounded(cfg, events, key);
  }

  // ---------- counted when the executor is entered ----------

  ghost function TargetStarts(calls: seq<Call>, domain: string): seq<real> {
    if calls == [] then []
    else
      var n := |calls| - 1;
      TargetStarts(calls[..n], domain) + (if calls[n].targetDomain == domain then [calls[n].start] else [])
  }

  ghost function IpStarts(calls: seq<Call>, ip: string): seq<real> {
    if calls == [] then []
    else
      var n := |calls| - 1;
      IpStarts(calls[..n], ip) + (if calls[n].sourceIp == ip then [calls[n].start] else [])
  }

  /** Calls follow one another, and each is admitted by the domain, then by the IP, and then made. */
  ghost predicate Sequential(calls: seq<Call>, clock: real) {
    && (forall i :: 0 <= i < |calls| ==> calls[i].targetTime <= calls[i].ipTime <= calls[i].start <= clock)
    && (forall i, j :: 0 <= i < j < |calls| ==> calls[i].start <= calls[j].targetTime)
  }

  lemma {:induction false} RunIsSequential(cfg: Config, events: seq<Event>, clock: real)
    requires ClockForward(events) && (Clock(events).Some? ==> Clock(events).value <= clock)
    ensures Sequential(After(cfg, events).calls, clock)
    decreases |events|
  {
    hide Iterate, WithLimiter, Grants, InTimeWindow;
    if events != [] {
      var n := |events| - 1;
      match events[n]
      case Add(job) =>
        RunIsSequential(cfg, events[..n], clock);
      case Work(t) =>
        RunIsSequential(cfg, events[..n], t.start);
        if t.pick < |After(cfg, events[..n]).queue| {
          CalledIff(cfg, After(cfg, events[..n]), t);
        }
    }
  }

  lemma {:induction false} TargetsStarted(calls: seq<Call>, domain: string, clock: real)
    requires Sequential(calls, clock)
    ensures StartedAfter(TargetTimes(calls, domain), TargetStarts(calls, domain))
    ensures forall i :: 0 <= i < |TargetStarts(calls, domain)| ==> TargetStarts(calls, domain)[i] <= clock
    decreases |calls|
  {
    if calls != [] {
      TargetsStarted(calls[..|calls| - 1], domain, calls[|calls| - 1].targetTime);
    }
  }

  lemma {:induction false} IpsStarted(calls: seq<Call>, ip: string, clock: real)
    requires Sequential(calls, clock)
    ensures StartedAfter(IpTimes(calls, ip), IpStarts(calls, ip))
    ensures forall i :: 0 <= i < |IpStarts(calls, ip)| ==> IpStarts(calls, ip)[i] <= clock
    decreases |calls|
  {
    if calls != [] {
      IpsStarted(calls[..|calls| - 1], ip, calls[|calls| - 1].targetTime);
    }
  }

  /** While the clock does not go back, a window holds at most one call more when calls are counted at the
      moment the executor is entered. */
  lemma {:induction false} StartsWithinBudget(cfg: Config, events: seq<Event>, key: string, t1: real, t2: real)
    requires ValidConfig(cfg) && ClockForward(events) && t1 <= t2
    ensures CountIn(TargetStarts(After(cfg, events).calls, key), t1, t2) as real
              <= cfg.capacity + 1.0 + cfg.refillRate * (t2 - t1)
    ensures CountIn(IpStarts(After(cfg, events).calls, key), t1, t2) as real
              <= cfg.capacity + 1.0 + cfg.refillRate * (t2 - t1)
  {
    hide After, TargetTimes, IpTimes, TargetStarts, IpStarts, Sequential, ClockForward, CountIn;
    var calls := After(cfg, events).calls;
    var clock := Clock(events).GetOr(0.0);
    CallsWithinBudget(cfg, events, key, t1, t2);
    RunIsSequential(cfg, events, clock);
    TargetsStarted(calls, key, clock);
    IpsStarted(calls, key, clock);
    StartsCount(TargetTimes(calls, key), TargetStarts(calls, key), t1, t2);
    StartsCount(IpTimes(calls, key), IpStarts(calls, key), t1, t2);
  }

  /** Every call is made after each bucket admitted it, and at most `delay` later. */
  ghost predicate Prompt(calls: seq<Call>, delay: real) {
    forall i :: 0 <= i < |calls| ==>
      0.0 <= calls[i].start - calls[i].targetTime <= delay && 0.0 <= calls[i].start - calls[i].ipTime <= delay
  }

  lemma {:induction false} StartedPromptly(calls: seq<Call>, key: string, delay: real)
    requires Prompt(calls, delay)
    ensures StartedWithin(TargetTimes(calls, key), TargetStarts(calls, key), delay)
    ensures StartedWithin(IpTimes(calls, key), IpStarts(calls, key), delay)
    decreases |calls|
  {
    if calls != [] {
      StartedPromptly(calls[..|calls| - 1], key, delay);
    }
  }

  /** When every call is made at most `delay` after it was admitted, a window holds no more calls than
      capacity plus refill of a window longer by `delay`. */
  lemma {:induction false} PromptStartsWithinBudget(cfg: Config, events: seq<Event>, delay: real, key: string,
                                                    t1: real, t2: real)
    requires ValidConfig(cfg) && t1 <= t2 && 0.0 <= delay && Prompt(After(cfg, events).calls, delay)
    ensures CountIn(TargetStarts(After(cfg, events).calls, key), t1, t2) as real
              <= cfg.capacity + cfg.refillRate * (t2 - t1 + delay)
    ensures CountIn(IpStarts(After(cfg, events).calls, key), t1, t2) as real
              <= cfg.capacity + cfg.refillRate * (t2 - t1 + delay)
  {
    hide After, TargetTimes, IpTimes, TargetStarts, IpStarts, StartedWithin, WindowBound, CountIn, Prompt;
    var calls := After(cfg, events).calls;
    TimesBounded(cfg, events, key);
    StartedPromptly(calls, key, delay);
    WindowOf(cfg.capacity, cfg.refillRate, TargetTimes(calls, key), t1 - delay, t2, t2 - t1 + delay);
    WindowOf(cfg.capacity, cfg.refillRate, IpTimes(calls, key), t1 - delay, t2, t2 - t1 + delay);
    DelayedCount(TargetTimes(calls, key), TargetStarts(calls, key), delay, t1, t2);
    DelayedCount(IpTimes(calls, key), IpStarts(calls, key), delay, t1, t2);
  }
}
