/**
 orchestration/scheduler.py, what the token bucket answers, said of the history of requests alone: when a
 request is granted, and what that comes to for the two configurations of the scheduler.
 */
module BudgetLaws {
  import opened Prelude
  import opened RateLimiter
  import SS = SchedulerSteps

  /** The bucket created full at `created`, after requests for one token each at the readings `asks`. */
  ghost function BucketAfter(capacity: real, rate: real, created: real, asks: seq<real>): Bucket {
    if asks == [] then NewBucket(capacity, rate, created)
    else Consumed(BucketAfter(capacity, rate, created, asks[..|asks| - 1]), 1.0, asks[|asks| - 1])
  }

  /** The readings of those requests that were granted. */
  ghost function GrantsOf(capacity: real, rate: real, created: real, asks: seq<real>): seq<real> {
    if asks == [] then []
    else
      var n := |asks| - 1;
      GrantsOf(capacity, rate, created, asks[..n])
        + (if Grants(BucketAfter(capacity, rate, created, asks[..n]), 1.0, asks[n]) then [asks[n]] else [])
  }

  /** The clock does not go back from the creation on. */
  ghost predicate Forward(created: real, asks: seq<real>) {
    && (forall i :: 0 <= i < |asks| ==> created <= asks[i])
    && (forall i, j :: 0 <= i < j < |asks| ==> asks[i] <= asks[j])
  }

  /** One more grant at `now` stays within capacity plus refill of the window from `since` on. */
  ghost predicate RoomSince(capacity: real, rate: real, grants: seq<real>, since: real, now: real) {
    CountIn(grants, since, now) as real + 1.0 <= capacity + rate * (now - since)
  }

  // ---------- what the bucket holds ----------

  /** Of every window that ends now, the bucket holds at most what the grants in it have left. */
  ghost predicate HoldsAtMost(b: Bucket, grants: seq<real>, created: real, now: real) {
    forall since :: created <= since <= now ==>
      b.tokens + CountIn(grants, since, now) as real <= b.capacity + Earned(b.refillRate, now - since)
  }

  /** Of some window that ends now, it holds exactly that. */
  ghost predicate HoldsSince(b: Bucket, grants: seq<real>, since: real, now: real) {
    b.tokens + CountIn(grants, since, now) as real == b.capacity + Earned(b.refillRate, now - since)
  }

  ghost predicate Accounted(b: Bucket, grants: seq<real>, created: real, last: real) {
    && b.Valid() && b.lastRefill == last && created <= last
    && (forall i :: 0 <= i < |grants| ==> grants[i] <= last)
    && HoldsAtMost(b, grants, created, last)
    && exists since :: created <= since <= last && HoldsSince(b, grants, since, last)
  }

  /** Readings that lie before a window, or that end before it does. */
  lemma {:induction false} CountUpTo(times: seq<real>, since: real, last: real, now: real)
    requires last <= now && forall i :: 0 <= i < |times| ==> times[i] <= last
    ensures CountIn(times, since, now) == CountIn(times, since, last)
    ensures last < since ==> CountIn(times, since, now) == 0
  {
    if times != [] {
      CountUpTo(times[..|times| - 1], since, last, now);
    }
  }

  lemma RefillHoldsAtMost(b: Bucket, grants: seq<real>, created: real, now: real, since: real)
    requires Accounted(b, grants, created, b.lastRefill) && b.lastRefill <= now && created <= since <= now
    ensures Refill(b, now).tokens + CountIn(grants, since, now) as real
              <= b.capacity + Earned(b.refillRate, now - since)
  {
    hide Earned, CountIn, HoldsSince;
    CountUpTo(grants, since, b.lastRefill, now);
    if since <= b.lastRefill {
      EarnedSplits(b.refillRate, b.lastRefill - since, now - b.lastRefill, now - since);
    } else {
      EarnedAdds(b.refillRate, 0.0, now - since);
    }
  }

  /** A full bucket has granted nothing at the time of its last refill. */
  lemma FullHasNone(b: Bucket, grants: seq<real>, created: real)
    requires Accounted(b, grants, created, b.lastRefill) && b.tokens == b.capacity
    ensures CountIn(grants, b.lastRefill, b.lastRefill) == 0
  {
    EarnedIs(b.refillRate, b.lastRefill - b.lastRefill);
    hide Earned, CountIn, HoldsSince;
  }

  lemma RefillHoldsSince(b: Bucket, grants: seq<real>, created: real, now: real) returns (since: real)
    requires Accounted(b, grants, created, b.lastRefill) && b.lastRefill <= now
    ensures created <= since <= now && HoldsSince(Refill(b, now), grants, since, now)
  {
    var last := b.lastRefill;
    EarnedIs(b.refillRate, now - now);
    EarnedIs(b.refillRate, last - last);
    hide Earned, CountIn, HoldsAtMost;
    var before :| created <= before <= last && HoldsSince(b, grants, before, last);
    CountUpTo(grants, before, last, now);
    CountUpTo(grants, now, last, now);
    EarnedSplits(b.refillRate, last - before, now - last, now - before);
    EarnedAdds(b.refillRate, 0.0, now - last);
    if b.tokens + Earned(b.refillRate, now - last) < b.capacity {
      since := before;
    } else {
      since := now;
      if last == now {
        FullHasNone(b, grants, created);
      }
    }
  }

  lemma RefillAccounted(b: Bucket, grants: seq<real>, created: real, now: real)
    requires Accounted(b, grants, created, b.lastRefill) && b.lastRefill <= now
    ensures Accounted(Refill(b, now), grants, created, now)
  {
    hide Earned, CountIn, HoldsSince;
    RefillValid(b, now);
    RefillKeeps(b, now);
    var since := RefillHoldsSince(b, grants, created, now);
    hide Refill;
    forall since | created <= since <= now
      ensures Refill(b, now).tokens + CountIn(grants, since, now) as real
                <= b.capacity + Earned(b.refillRate, now - since)
    {
      RefillHoldsAtMost(b, grants, created, now, since);
    }
  }

  lemma OneMoreGrant(grants: seq<real>, since: real, now: real)
    requires since <= now
    ensures CountIn(grants + [now], since, now) == CountIn(grants, since, now) + 1
  {
    assert (grants + [now])[..|grants|] == grants;
  }

  lemma GrantAccounted(b: Bucket, grants: seq<real>, created: real)
    requires Accounted(b, grants, created, b.lastRefill) && b.tokens >= 1.0
    ensures Accounted(b.(tokens := b.tokens - 1.0), grants + [b.lastRefill], created, b.lastRefill)
  {
    hide Earned, CountIn;
    var now, b', grants' := b.lastRefill, b.(tokens := b.tokens - 1.0), grants + [b.lastRefill];
    forall since | created <= since <= now
      ensures b'.tokens + CountIn(grants', since, now) as real <= b'.capacity + Earned(b'.refillRate, now - since)
    {
      OneMoreGrant(grants, since, now);
    }
    var since :| created <= since <= now && HoldsSince(b, grants, since, now);
    OneMoreGrant(grants, since, now);
    assert HoldsSince(b', grants', since, now);
  }

  lemma NewAccounted(capacity: real, rate: real, created: real)
    requires 0.0 <= capacity && 0.0 <= rate
    ensures Accounted(NewBucket(capacity, rate, created), [], created, created)
  {
    EarnedIs(rate, created - created);
    hide Earned;
    assert HoldsSince(NewBucket(capacity, rate, created), [], created, created);
  }

  lemma ConsumedIs(b: Bucket, now: real)
    ensures var r := Refill(b, now);
            Consumed(b, 1.0, now) == if r.tokens >= 1.0 then r.(tokens := r.tokens - 1.0) else r
    ensures Grants(b, 1.0, now) <==> Refill(b, now).tokens >= 1.0
  {
    hide Refill;
  }

  lemma {:induction false} RunAccounted(capacity: real, rate: real, created: real, asks: seq<real>)
    requires 0.0 <= capacity && 0.0 <= rate && Forward(created, asks)
    ensures var b := BucketAfter(capacity, rate, created, asks);
            && b.capacity == capacity && b.refillRate == rate
            && b.lastRefill == (if asks == [] then created else asks[|asks| - 1])
            && Accounted(b, GrantsOf(capacity, rate, created, asks), created, b.lastRefill)
  {
    hide Refill, Consumed, Grants, Accounted;
    if asks == [] {
      NewAccounted(capacity, rate, created);
    } else {
      var n := |asks| - 1;
      RunAccounted(capacity, rate, created, asks[..n]);
      var b, grants := BucketAfter(capacity, rate, created, asks[..n]), GrantsOf(capacity, rate, created, asks[..n]);
      ConsumedIs(b, asks[n]);
      RefillKeeps(b, asks[n]);
      RefillAccounted(b, grants, created, asks[n]);
      if Refill(b, asks[n]).tokens >= 1.0 {
        GrantAccounted(Refill(b, asks[n]), grants, created);
      } else {
        assert grants + [] == grants;
      }
    }
  }

  // ---------- when a request is granted ----------

  /** While the clock does not go back, a request is granted if and only if, counting it, no window that
      ends with it holds more grants than the capacity and what the refill rate is worth over the window. */
  lemma {:induction false} GrantedIff(capacity: real, rate: real, created: real, asks: seq<real>, now: real)
    requires 0.0 <= capacity && 0.0 <= rate && Forward(created, asks + [now])
    ensures Grants(BucketAfter(capacity, rate, created, asks), 1.0, now) <==>
            forall since :: created <= since <= now ==>
              RoomSince(capacity, rate, GrantsOf(capacity, rate, created, asks), since, now)
  {
    hide Refill, Grants, CountIn, BucketAfter, GrantsOf;
    var b, grants := BucketAfter(capacity, rate, created, asks), GrantsOf(capacity, rate, created, asks);
    assert forall i :: 0 <= i < |asks| ==> (asks + [now])[i] == asks[i];
    assert (asks + [now])[|asks|] == now;
    RunAccounted(capacity, rate, created, asks);
    ConsumedIs(b, now);
    RefillKeeps(b, now);
    RefillAccounted(b, grants, created, now);
    RoomIff(Refill(b, now), grants, created);
  }

  lemma RoomIff(b: Bucket, grants: seq<real>, created: real)
    requires Accounted(b, grants, created, b.lastRefill)
    ensures b.tokens >= 1.0 <==>
            forall since :: created <= since <= b.lastRefill ==>
              RoomSince(b.capacity, b.refillRate, grants, since, b.lastRefill)
  {
    hide CountIn, Bucket.Valid;
    forall since | created <= since <= b.lastRefill
      ensures RoomSince(b.capacity, b.refillRate, grants, since, b.lastRefill) <==>
              CountIn(grants, since, b.lastRefill) as real + 1.0
                <= b.capacity + Earned(b.refillRate, b.lastRefill - since)
    {
      EarnedIs(b.refillRate, b.lastRefill - since);
    }
    hide Earned, RoomSince;
  }

  /** It is not enough that the last window is covered from when the bucket was full first: what exceeds
      the capacity is lost. One token, one a second, full at 0: of two requests at 10 one is granted, although
      ten seconds have refilled more than both take. */
  lemma FullBucketNotEnough()
    ensures GrantsOf(1.0, 1.0, 0.0, [10.0]) == [10.0]
    ensures RoomSince(1.0, 1.0, [10.0], 0.0, 10.0)
    ensures !Grants(BucketAfter(1.0, 1.0, 0.0, [10.0]), 1.0, 10.0)
  {
    assert [10.0][..0] == [];
    assert BucketAfter(1.0, 1.0, 0.0, []) == NewBucket(1.0, 1.0, 0.0);
    assert BucketAfter(1.0, 1.0, 0.0, [10.0]) == Consumed(NewBucket(1.0, 1.0, 0.0), 1.0, 10.0);
    assert [10.0][..0] == [] && CountIn([], 0.0, 10.0) == 0;
  }

  // ---------- the two configurations ----------

  /** In slow mode a window of any length holds at most ten calls and half a one for every second, otherwise a
      hundred and ten for every second, for each domain and for each source IP. */
  lemma ModeBudget(slowMode: bool, events: seq<SS.Event>, key: string, t1: real, t2: real)
    requires t1 <= t2
    ensures var calls := SS.After(SS.ConfigFor(slowMode), events).calls;
            && CountIn(SS.TargetTimes(calls, key), t1, t2) as real
                 <= (if slowMode then 10.0 + 0.5 * (t2 - t1) else 100.0 + 10.0 * (t2 - t1))
            && CountIn(SS.IpTimes(calls, key), t1, t2) as real
                 <= (if slowMode then 10.0 + 0.5 * (t2 - t1) else 100.0 + 10.0 * (t2 - t1))
  {
    hide SS.After, SS.TargetTimes, SS.IpTimes, CountIn;
    SS.CallsWithinBudget(SS.ConfigFor(slowMode), events, key, t1, t2);
  }

  /** The same room in the numbers of a mode. */
  ghost predicate RoomInMode(slowMode: bool, grants: seq<real>, since: real, now: real) {
    if slowMode then CountIn(grants, since, now) as real + 1.0 <= 10.0 + 0.5 * (now - since)
    else CountIn(grants, since, now) as real + 1.0 <= 100.0 + 10.0 * (now - since)
  }

  /** And a request is refused only when one of these windows is full. */
  lemma ModeGrantedIff(slowMode: bool, created: real, asks: seq<real>, now: real)
    requires Forward(created, asks + [now])
    ensures var cfg := SS.ConfigFor(slowMode);
            && (Grants(BucketAfter(cfg.capacity, cfg.refillRate, created, asks), 1.0, now) <==>
                forall since :: created <= since <= now ==>
                  RoomInMode(slowMode, GrantsOf(cfg.capacity, cfg.refillRate, created, asks), since, now))
  {
    hide Grants, CountIn, BucketAfter, GrantsOf;
    var cfg := SS.ConfigFor(slowMode);
    var grants := GrantsOf(cfg.capacity, cfg.refillRate, created, asks);
    GrantedIff(cfg.capacity, cfg.refillRate, created, asks, now);
    assert forall since ::
      RoomInMode(slowMode, grants, since, now) <==> RoomSince(cfg.capacity, cfg.refillRate, grants, since, now);
  }

  /** A first call for a domain, from a source IP that made none, is let through at once, and leaves both
      limiters with one token less than they hold when full. */
  lemma FreshKeysAdmitted(cfg: SS.Config, s: SS.State, t: SS.Tick)
    requires 1.0 <= cfg.capacity && 0.0 <= cfg.refillRate && t.pick < |s.queue| && t.InOrder()
    requires var job := s.queue[t.pick];
             && job.targetDomain !in s.targets && job.sourceIp !in s.ips
             && !job.scheduledZoned && job.scheduledFor - t.start <= 1.0
             && SS.InTimeWindow(job, t.timeOfDay) == Some(true) && t.mlDelay <= 0.5
    ensures var job, s' := s.queue[t.pick], SS.Iterate(cfg, s, t);
            && |s'.calls| == |s.calls| + 1
            && s'.targets == s.targets[job.targetDomain := Bucket(cfg.capacity, cfg.capacity - 1.0, cfg.refillRate,
                                                                  t.target)]
            && s'.ips == s.ips[job.sourceIp := Bucket(cfg.capacity, cfg.capacity - 1.0, cfg.refillRate, t.ip)]
  {
    hide SS.InTimeWindow, SS.RemoveAt, SS.BackoffDelay;
    FreshGrants(cfg.capacity, cfg.refillRate, t.create, t.target);
    FreshGrants(cfg.capacity, cfg.refillRate, t.create, t.ip);
    hide Grants, Consumed, NewBucket;
  }

  lemma FreshGrants(capacity: real, rate: real, created: real, now: real)
    requires 1.0 <= capacity && 0.0 <= rate && created <= now
    ensures Grants(NewBucket(capacity, rate, created), 1.0, now)
    ensures Consumed(NewBucket(capacity, rate, created), 1.0, now) == Bucket(capacity, capacity - 1.0, rate, now)
  {
    hide Earned;
    EarnedAdds(rate, 0.0, now - created);
  }
}
