/**
 orchestration/scheduler.py, the token bucket: refilled lazily when it is asked, so that a refused
 request leaves nothing behind that a later answer could depend on.
 */
module RateLimiter {
  import opened Prelude

  datatype Bucket = Bucket(capacity: real, tokens: real, refillRate: real, lastRefill: real)
  {
    ghost predicate Valid() {
      0.0 <= tokens <= capacity && 0.0 <= refillRate
    }
  }

  function NewBucket(capacity: real, refillRate: real, now: real): Bucket {
    Bucket(capacity, capacity, refillRate, now)
  }

  /** The tokens that a span of time is worth. */
  function Earned(refillRate: real, span: real): real {
    span * refillRate
  }

  function Refill(b: Bucket, now: real): Bucket {
    var available := b.tokens + Earned(b.refillRate, now - b.lastRefill);
    b.(tokens := if available < b.capacity then available else b.capacity, lastRefill := now)
  }

  function Grants(b: Bucket, amount: real, now: real): bool {
    Refill(b, now).tokens >= amount
  }

  /** The bucket after a request, granted or not. */
  function Consumed(b: Bucket, amount: real, now: real): Bucket {
    var r := Refill(b, now);
    if Grants(b, amount, now) then r.(tokens := r.tokens - amount) else r
  }

  class Limiter {
    const capacity: real
    const refillRate: real
    var tokens: real
    var lastRefill: real

    ghost function State(): Bucket
      reads this
    {
      Bucket(capacity, tokens, refillRate, lastRefill)
    }

    constructor (capacity: real, refillRate: real, now: real)
      ensures State() == NewBucket(capacity, refillRate, now)
    {
      this.capacity, this.tokens, this.refillRate, this.lastRefill := capacity, capacity, refillRate, now;
    }

    method Consume(amount: real, now: real) returns (granted: bool)
      modifies this
      ensures granted == Grants(old(State()), amount, now)
      ensures State() == Consumed(old(State()), amount, now)
      ensures granted <==> old(tokens) + (now - old(lastRefill)) * refillRate >= amount && capacity >= amount
    {
      var elapsed := now - lastRefill;
      var earned := elapsed * refillRate;
      assert earned == Earned(refillRate, now - lastRefill);
      hide Earned;
      var available := tokens + earned;
      tokens := if available < capacity then available else capacity;
      lastRefill := now;
      if tokens >= amount {
        tokens := tokens - amount;
        return true;
      }
      return false;
    }
  }

  lemma EarnedIs(rate: real, span: real)
    ensures Earned(rate, span) == rate * span
  {
  }

  // ---------- lazy refill composes ----------

  lemma EarnedAdds(rate: real, a: real, b: real)
    requires 0.0 <= rate && 0.0 <= b
    ensures Earned(rate, a + b) == Earned(rate, a) + Earned(rate, b)
    ensures 0.0 <= Earned(rate, b)
    ensures Earned(rate, a) <= Earned(rate, a + b)
  {
    MulMono(0.0, b, rate);
  }

  lemma RefillValid(b: Bucket, now: real)
    requires b.Valid() && b.lastRefill <= now
    ensures Refill(b, now).Valid() && b.tokens <= Refill(b, now).tokens
    ensures Refill(b, now).tokens <= b.tokens + Earned(b.refillRate, now - b.lastRefill)
  {
    hide Earned;
    EarnedAdds(b.refillRate, 0.0, now - b.lastRefill);
  }

  /** Refilling on the way makes no difference. */
  lemma RefillComposes(b: Bucket, t1: real, t2: real)
    requires b.Valid() && b.lastRefill <= t1 <= t2
    ensures Refill(Refill(b, t1), t2) == Refill(b, t2)
  {
    hide Earned;
    EarnedAdds(b.refillRate, t1 - b.lastRefill, t2 - t1);
    EarnedAdds(b.refillRate, 0.0, t2 - t1);
    assert t1 - b.lastRefill + (t2 - t1) == t2 - b.lastRefill;
  }

  // ---------- sequences of requests ----------

  datatype Request = Request(time: real, amount: real)

  /** Requests come in the order of a clock that has reached `from`. */
  ghost predicate InOrder(from: real, rs: seq<Request>)
    decreases |rs|
  {
    rs == [] || (from <= rs[0].time && 0.0 <= rs[0].amount && InOrder(rs[0].time, rs[1..]))
  }

  ghost function Answers(b: Bucket, rs: seq<Request>): seq<bool>
    decreases |rs|
  {
    if rs == [] then []
    else [Grants(b, rs[0].amount, rs[0].time)] + Answers(Consumed(b, rs[0].amount, rs[0].time), rs[1..])
  }

  ghost function After(b: Bucket, rs: seq<Request>): Bucket
    decreases |rs|
  {
    if rs == [] then b else After(Consumed(b, rs[0].amount, rs[0].time), rs[1..])
  }

  /** The requests that are granted. */
  ghost function Granted(b: Bucket, rs: seq<Request>): seq<Request>
    decreases |rs|
  {
    if rs == [] then []
    else (if Grants(b, rs[0].amount, rs[0].time) then [rs[0]] else [])
         + Granted(Consumed(b, rs[0].amount, rs[0].time), rs[1..])
  }

  lemma ConsumeValid(b: Bucket, amount: real, now: real)
    requires b.Valid() && b.lastRefill <= now && 0.0 <= amount
    ensures Consumed(b, amount, now).Valid() && Consumed(b, amount, now).lastRefill == now
  {
    RefillValid(b, now);
  }

  lemma SameAfterRefill(b: Bucket, t: real, amount: real, now: real)
    requires b.Valid() && b.lastRefill <= t <= now
    ensures Grants(Refill(b, t), amount, now) == Grants(b, amount, now)
    ensures Consumed(Refill(b, t), amount, now) == Consumed(b, amount, now)
  {
    RefillComposes(b, t, now);
  }

  /** A refused request does not change any later answer. */
  lemma {:induction false} RefusalLeavesNoTrace(b: Bucket, refused: Request, later: seq<Request>)
    requires b.Valid() && InOrder(b.lastRefill, [refused] + later)
    requires !Grants(b, refused.amount, refused.time)
    ensures Answers(Consumed(b, refused.amount, refused.time), later) == Answers(b, later)
    ensures later != [] ==> After(Consumed(b, refused.amount, refused.time), later) == After(b, later)
  {
    assert ([refused] + later)[1..] == later;
    if later != [] {
      SameAfterRefill(b, refused.time, later[0].amount, later[0].time);
    }
  }

  lemma InOrderFromEarlier(from: real, from': real, rs: seq<Request>)
    requires from' <= from && InOrder(from, rs)
    ensures InOrder(from', rs)
  {
  }

  lemma {:induction false} GrantedInOrder(b: Bucket, rs: seq<Request>, from: real)
    requires InOrder(from, rs)
    ensures InOrder(from, Granted(b, rs))
    decreases |rs|
  {
    hide Grants, Consumed;
    if rs != [] {
      var b' := Consumed(b, rs[0].amount, rs[0].time);
      GrantedInOrder(b', rs[1..], rs[0].time);
      var g := Granted(b', rs[1..]);
      if Grants(b, rs[0].amount, rs[0].time) {
        assert ([rs[0]] + g)[1..] == g;
      } else {
        assert [] + g == g;
        InOrderFromEarlier(rs[0].time, from, g);
      }
    }
  }

  /** Granting again what was granted, from a bucket that saw a refusal or from one that did not. */
  lemma SkipRefused(b: Bucket, r: Request, g: seq<Request>, end: real)
    requires b.Valid() && b.lastRefill <= r.time <= end && InOrder(r.time, g) && !Grants(b, r.amount, r.time)
    ensures Granted(b, g) == Granted(Consumed(b, r.amount, r.time), g)
    ensures Refill(After(b, g), end) == Refill(After(Consumed(b, r.amount, r.time), g), end)
  {
    hide Refill;
    if g == [] {
      RefillComposes(b, r.time, end);
    } else {
      SameAfterRefill(b, r.time, g[0].amount, g[0].time);
    }
  }

  /** Leaving out all refused requests, every remaining one is granted, and the buckets agree from then on. */
  lemma {:induction false} OnlyGrantsMatter(b: Bucket, rs: seq<Request>, end: real)
    requires b.Valid() && InOrder(b.lastRefill, rs)
    requires b.lastRefill <= end && forall i :: 0 <= i < |rs| ==> rs[i].time <= end
    ensures Granted(b, Granted(b, rs)) == Granted(b, rs)
    ensures Refill(After(b, Granted(b, rs)), end) == Refill(After(b, rs), end)
    decreases |rs|
  {
    hide Refill, Consumed, Grants;
    if rs != [] {
      var r := rs[0];
      var b' := Consumed(b, r.amount, r.time);
      ConsumeValid(b, r.amount, r.time);
      OnlyGrantsMatter(b', rs[1..], end);
      var g := Granted(b', rs[1..]);
      if Grants(b, r.amount, r.time) {
        assert ([r] + g)[1..] == g;
      } else {
        assert [] + g == g;
        GrantedInOrder(b', rs[1..], r.time);
        SkipRefused(b, r, g, end);
      }
    }
  }

  // ---------- how many grants a window holds ----------

  ghost function CountIn(times: seq<real>, t1: real, t2: real): nat {
    if times == [] then 0
    else CountIn(times[..|times| - 1], t1, t2) + (if t1 <= times[|times| - 1] <= t2 then 1 else 0)
  }

  /** The number of grants from the first one at or after `t1` on, in the order in which they were made. */
  ghost function CountSince(times: seq<real>, t1: real): nat {
    if times == [] then 0
    else
      var n := |times| - 1;
      var before := CountSince(times[..n], t1);
      if before > 0 || t1 <= times[n] then before + 1 else 0
  }

  /** No window holds more than the capacity and what the bucket is refilled with while the window lasts. */
  ghost predicate WindowBound(capacity: real, refillRate: real, times: seq<real>) {
    forall t1, t2 :: t1 <= t2 ==> CountIn(times, t1, t2) as real <= capacity + refillRate * (t2 - t1)
  }

  /** What the bucket still holds, plus what was taken since the first grant at or after any time, is
      covered by the capacity and the refill since then. `times` are readings at which a token was
      taken and used; the clock may go back between them. */
  ghost predicate Covered(b: Bucket, times: seq<real>) {
    forall t1 :: CountSince(times, t1) > 0 ==>
      b.tokens + CountSince(times, t1) as real <= b.capacity + Earned(b.refillRate, b.lastRefill - t1)
  }

  ghost predicate Paced(b: Bucket, times: seq<real>) {
    && b.tokens <= b.capacity && 0.0 <= b.refillRate
    && Covered(b, times)
    && WindowBound(b.capacity, b.refillRate, times)
  }

  lemma {:induction false} CountInSince(times: seq<real>, t1: real, t2: real)
    ensures CountIn(times, t1, t2) <= CountSince(times, t1)
  {
    if times != [] {
      CountInSince(times[..|times| - 1], t1, t2);
    }
  }

  lemma NewBucketPaced(capacity: real, refillRate: real, now: real)
    requires 0.0 <= capacity && 0.0 <= refillRate
    ensures Paced(NewBucket(capacity, refillRate, now), [])
  {
    forall t1: real, t2: real | t1 <= t2
      ensures CountIn([], t1, t2) as real <= capacity + refillRate * (t2 - t1)
    {
      MulMono(0.0, t2 - t1, refillRate);
    }
  }

  /** The bound of a window of the given length. */
  lemma WindowOf(capacity: real, refillRate: real, times: seq<real>, t1: real, t2: real, span: real)
    requires WindowBound(capacity, refillRate, times) && t1 <= t2 && span == t2 - t1
    ensures CountIn(times, t1, t2) as real <= capacity + refillRate * span
  {
  }

  lemma EarnedSplits(rate: real, a: real, b: real, ab: real)
    requires ab == a + b
    ensures Earned(rate, ab) == Earned(rate, a) + Earned(rate, b)
  {
  }

  lemma CoveredAt(b: Bucket, times: seq<real>, now: real, t1: real)
    requires Covered(b, times) && CountSince(times, t1) > 0
    ensures Refill(b, now).tokens + CountSince(times, t1) as real <= b.capacity + Earned(b.refillRate, now - t1)
  {
    hide Earned;
    EarnedSplits(b.refillRate, b.lastRefill - t1, now - b.lastRefill, now - t1);
  }

  /** A request keeps the bound, when nothing is done with what it grants. */
  lemma RefillPaced(b: Bucket, times: seq<real>, now: real)
    requires Paced(b, times)
    ensures Paced(Refill(b, now), times)
  {
    hide Earned, WindowBound;
    forall t1 | CountSince(times, t1) > 0
      ensures Refill(b, now).tokens + CountSince(times, t1) as real <= b.capacity + Earned(b.refillRate, now - t1)
    {
      CoveredAt(b, times, now, t1);
    }
  }

  lemma ConsumePaced(b: Bucket, times: seq<real>, now: real)
    requires Paced(b, times)
    ensures Paced(Consumed(b, 1.0, now), times)
  {
    hide Earned, WindowBound, Refill;
    RefillPaced(b, times, now);
    RefillKeeps(b, now);
  }

  lemma RefillKeeps(b: Bucket, now: real)
    ensures Refill(b, now).lastRefill == now
    ensures Refill(b, now).capacity == b.capacity && Refill(b, now).refillRate == b.refillRate
  {
  }

  lemma SinceGrows(times: seq<real>, now: real, t1: real)
    ensures CountSince(times + [now], t1)
         == if CountSince(times, t1) > 0 || t1 <= now then CountSince(times, t1) + 1 else 0
  {
    assert (times + [now])[..|times|] == times;
  }

  /** A granted token that is used is covered. */
  lemma GrantCovered(b: Bucket, times: seq<real>, now: real, t1: real)
    requires Paced(b, times) && Grants(b, 1.0, now) && CountSince(times + [now], t1) > 0
    ensures Consumed(b, 1.0, now).tokens + CountSince(times + [now], t1) as real
              <= b.capacity + Earned(b.refillRate, now - t1)
  {
    hide Earned, WindowBound, CountSince;
    SinceGrows(times, now, t1);
    if CountSince(times, t1) > 0 {
      CoveredAt(b, times, now, t1);
    } else {
      EarnedAdds(b.refillRate, 0.0, now - t1);
    }
  }

  /** One more grant in the window that holds it. */
  lemma WindowAt(b: Bucket, times: seq<real>, now: real, t1: real, t2: real)
    requires Paced(b, times) && Grants(b, 1.0, now) && t1 <= now <= t2
    ensures CountIn(times + [now], t1, t2) as real <= b.capacity + b.refillRate * (t2 - t1)
  {
    EarnedIs(b.refillRate, t2 - t1);
    hide Earned, WindowBound, Refill, CountIn, CountSince;
    CountInSince(times + [now], t1, t2);
    SinceGrows(times, now, t1);
    GrantCovered(b, times, now, t1);
    EarnedAdds(b.refillRate, now - t1, t2 - now);
    assert now - t1 + (t2 - now) == t2 - t1;
  }

  /** Any other window holds what it held. */
  lemma OtherWindow(capacity: real, refillRate: real, times: seq<real>, now: real, t1: real, t2: real)
    requires WindowBound(capacity, refillRate, times) && t1 <= t2 && !(t1 <= now <= t2)
    ensures CountIn(times + [now], t1, t2) as real <= capacity + refillRate * (t2 - t1)
  {
    assert (times + [now])[..|times|] == times;
  }

  lemma GrantBounded(b: Bucket, times: seq<real>, now: real)
    requires Paced(b, times) && Grants(b, 1.0, now)
    ensures WindowBound(b.capacity, b.refillRate, times + [now])
  {
    hide CountIn, Covered, Grants;
    forall t1, t2 | t1 <= t2
      ensures CountIn(times + [now], t1, t2) as real <= b.capacity + b.refillRate * (t2 - t1)
    {
      if t1 <= now <= t2 {
        WindowAt(b, times, now, t1, t2);
      } else {
        OtherWindow(b.capacity, b.refillRate, times, now, t1, t2);
      }
    }
  }

  /** A granted token that is used keeps the bound too, whatever the clock reads. */
  lemma GrantPaced(b: Bucket, times: seq<real>, now: real)
    requires Paced(b, times) && Grants(b, 1.0, now)
    ensures Paced(Consumed(b, 1.0, now), times + [now])
  {
    hide Earned, Refill, WindowBound;
    RefillKeeps(b, now);
    RefillPaced(b, times, now);
    GrantBounded(b, times, now);
    forall t1 | CountSince(times + [now], t1) > 0
      ensures Consumed(b, 1.0, now).tokens + CountSince(times + [now], t1) as real
                <= b.capacity + Earned(b.refillRate, now - t1)
    {
      GrantCovered(b, times, now, t1);
    }
  }

  /** Each use starts at or after the reading that granted it and before the next such reading. */
  ghost predicate StartedAfter(grants: seq<real>, starts: seq<real>) {
    && |starts| == |grants|
    && (forall i :: 0 <= i < |grants| ==> grants[i] <= starts[i])
    && (forall i, j :: 0 <= i < j < |grants| ==> starts[i] <= grants[j])
  }

  lemma {:induction false} StartsCount(grants: seq<real>, starts: seq<real>, t1: real, t2: real)
    requires StartedAfter(grants, starts)
    ensures CountIn(starts, t1, t2) <= CountIn(grants, t1, t2) + 1
    ensures (forall i :: 0 <= i < |starts| ==> starts[i] < t1) ==> CountIn(starts, t1, t2) == 0
    decreases |grants|
  {
    if grants != [] {
      var n := |grants| - 1;
      StartsCount(grants[..n], starts[..n], t1, t2);
      assert grants[n] < t1 ==> forall i :: 0 <= i < n ==> starts[..n][i] < t1;
    }
  }

  /** Each use starts no earlier than the reading that granted it, and at most `delay` later. */
  ghost predicate StartedWithin(grants: seq<real>, starts: seq<real>, delay: real) {
    |starts| == |grants| && forall i :: 0 <= i < |grants| ==> grants[i] <= starts[i] <= grants[i] + delay
  }

  /** The uses in a window were granted in the window or at most `delay` before it. */
  lemma {:induction false} DelayedCount(grants: seq<real>, starts: seq<real>, delay: real, t1: real, t2: real)
    requires StartedWithin(grants, starts, delay)
    ensures CountIn(starts, t1, t2) <= CountIn(grants, t1 - delay, t2)
    decreases |grants|
  {
    if grants != [] {
      var n := |grants| - 1;
      DelayedCount(grants[..n], starts[..n], delay, t1, t2);
    }
  }
}
