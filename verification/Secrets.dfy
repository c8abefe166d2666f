/**
 core/secrets.py: the per-caller sliding-window limit and the cache of the Vault secret manager.
 Clock readings and the answers of the Vault client are parameters.
 */
module Secrets {
  import opened Prelude
  import RL = RateLimiter

  const WINDOW := 60.0
  const MAX_REQUESTS := 30
  const CACHE_TTL := 60.0

  /** `[r for r in requests if now - r < 60]` */
  function Recent(requests: seq<real>, now: real): seq<real> {
    if requests == [] then []
    else
      var n := |requests| - 1;
      Recent(requests[..n], now) + (if now - requests[n] < WINDOW then [requests[n]] else [])
  }

  // ---------- the sliding window ----------

  /** All grants of a caller so far, and the clock of the last check. */
  ghost predicate Tracks(requests: seq<real>, history: seq<real>, clock: real) {
    requests == Recent(history, clock)
  }

  lemma {:induction false} RecentOfRecent(history: seq<real>, clock: real, now: real)
    requires clock <= now
    ensures Recent(Recent(history, clock), now) == Recent(history, now)
  {
    if history != [] {
      var n := |history| - 1;
      RecentOfRecent(history[..n], clock, now);
      var front := Recent(history[..n], clock);
      if clock - history[n] < WINDOW {
        assert (front + [history[n]])[..|front|] == front;
      } else {
        assert front + [] == front;
        assert Recent(history[..n], now) + [] == Recent(history[..n], now);
      }
    }
  }

  lemma RecentAppend(history: seq<real>, now: real)
    ensures Recent(history + [now], now) == Recent(history, now) + [now]
  {
    assert (history + [now])[..|history|] == history;
  }

  /** Filtering keeps the order, and of each reading keeps those less than a minute old. */
  lemma {:induction false} RecentConcat(a: seq<real>, b: seq<real>, now: real)
    ensures Recent(a + b, now) == Recent(a, now) + Recent(b, now)
    ensures forall r :: Recent([r], now) == if now - r < 60.0 then [r] else []
    decreases |b|
  {
    assert forall r: real :: [r][..0] == [];
    if b == [] {
      assert a + b == a && Recent(a, now) + [] == Recent(a, now);
    } else {
      assert (a + b)[..|a + b| - 1] == a + b[..|b| - 1];
      RecentConcat(a, b[..|b| - 1], now);
    }
  }

  /** The number of readings after a time. */
  ghost function CountAfter(times: seq<real>, t: real): nat {
    if times == [] then 0
    else CountAfter(times[..|times| - 1], t) + (if times[|times| - 1] > t then 1 else 0)
  }

  lemma {:induction false} RecentCounted(times: seq<real>, now: real)
    ensures |Recent(times, now)| == CountAfter(times, now - 60.0)
  {
    if times != [] {
      RecentCounted(times[..|times| - 1], now);
    }
  }

  /** At most 30 grants in any span shorter than a minute. */
  ghost predicate WindowKept(history: seq<real>) {
    forall t1, t2 :: t2 - t1 < 60.0 ==> RL.CountIn(history, t1, t2) <= 30
  }

  lemma {:induction false} CountAtMostRecent(history: seq<real>, t1: real, t2: real, now: real)
    requires t1 <= now && now - t1 < WINDOW
    ensures RL.CountIn(history, t1, t2) <= |Recent(history, now)|
  {
    if history != [] {
      CountAtMostRecent(history[..|history| - 1], t1, t2, now);
    }
  }

  lemma GrantKeepsWindow(history: seq<real>, now: real)
    requires WindowKept(history) && |Recent(history, now)| < MAX_REQUESTS
    ensures WindowKept(history + [now])
  {
    assert (history + [now])[..|history|] == history;
    forall t1, t2 | t2 - t1 < WINDOW
      ensures RL.CountIn(history + [now], t1, t2) <= MAX_REQUESTS
    {
      assert RL.CountIn(history, t1, t2) <= MAX_REQUESTS;
      if t1 <= now <= t2 {
        CountAtMostRecent(history, t1, t2, now);
      }
    }
  }

  /** The grants of a caller that asks at the given times. */
  ghost function GrantsOf(times: seq<real>): seq<real> {
    if times == [] then []
    else
      var n := |times| - 1;
      var history := GrantsOf(times[..n]);
      if |Recent(history, times[n])| < MAX_REQUESTS then history + [times[n]] else history
  }

  /** However often a caller asks, at most 30 requests are granted in any span shorter than a minute. */
  lemma {:induction false} AtMostThirtyPerMinute(times: seq<real>)
    ensures WindowKept(GrantsOf(times))
  {
    if times != [] {
      var n := |times| - 1;
      AtMostThirtyPerMinute(times[..n]);
      if |Recent(GrantsOf(times[..n]), times[n])| < MAX_REQUESTS {
        GrantKeepsWindow(GrantsOf(times[..n]), times[n]);
      }
    }
  }

  // ---------- a clock that goes back ----------

  /** The list kept for a caller that asks at the given times, and the times it was granted. */
  ghost function Kept(times: seq<real>): seq<real> {
    if times == [] then []
    else
      var n := |times| - 1;
      var recent := Recent(Kept(times[..n]), times[n]);
      if |recent| < MAX_REQUESTS then recent + [times[n]] else recent
  }

  ghost function Granted(times: seq<real>): seq<real> {
    if times == [] then []
    else
      var n := |times| - 1;
      if |Recent(Kept(times[..n]), times[n])| < MAX_REQUESTS then Granted(times[..n]) + [times[n]]
      else Granted(times[..n])
  }

  ghost predicate NonDecreasing(times: seq<real>) {
    forall i :: 0 < i < |times| ==> times[i - 1] <= times[i]
  }

  lemma AskedAgain(times: seq<real>, now: real)
    ensures var recent := Recent(Kept(times), now);
            && Kept(times + [now]) == (if |recent| < MAX_REQUESTS then recent + [now] else recent)
            && Granted(times + [now]) == (if |recent| < MAX_REQUESTS then Granted(times) + [now] else Granted(times))
    ensures GrantsOf(times + [now])
         == if |Recent(GrantsOf(times), now)| < MAX_REQUESTS then GrantsOf(times) + [now] else GrantsOf(times)
  {
    hide Recent;
    assert (times + [now])[..|times|] == times;
  }

  lemma NothingAsked(now: real)
    ensures Kept([]) == [] && Granted([]) == [] && GrantsOf([]) == [] && Recent([], now) == []
  {
  }

  /** While the clock does not go back, the pruned list stands for the whole history: the same requests
      are granted, and at most 30 in any span shorter than a minute. */
  lemma {:induction false} PruningIsSafe(times: seq<real>)
    requires NonDecreasing(times)
    ensures Granted(times) == GrantsOf(times) && WindowKept(Granted(times))
    ensures times != [] ==> Kept(times) == Recent(GrantsOf(times), times[|times| - 1])
  {
    hide Recent, Kept, Granted, GrantsOf, WindowKept;
    AtMostThirtyPerMinute(times);
    if times == [] {
      NothingAsked(0.0);
    } else {
      var n := |times| - 1;
      var front, now := times[..n], times[n];
      assert times == front + [now];
      PruningIsSafe(front);
      AskedAgain(front, now);
      if n > 0 {
        RecentOfRecent(GrantsOf(front), front[n - 1], now);
      } else {
        NothingAsked(now);
      }
      RecentAppend(GrantsOf(front), now);
    }
  }

  /** While the clock does not go back, a request is granted if and only if fewer than 30 have been granted in the
      minute that ends with it. */
  lemma {:induction false} GrantedIffFew(times: seq<real>, now: real)
    requires NonDecreasing(times + [now])
    ensures Granted(times + [now])
         == if CountAfter(Granted(times), now - 60.0) < 30 then Granted(times) + [now] else Granted(times)
  {
    hide Recent, Kept, Granted, GrantsOf, WindowKept, CountAfter;
    assert forall i :: 0 <= i < |times| ==> (times + [now])[i] == times[i];
    PruningIsSafe(times);
    AskedAgain(times, now);
    RecentCounted(GrantsOf(times), now);
    if times == [] {
      NothingAsked(now);
    } else {
      assert (times + [now])[|times|] == now;
      RecentOfRecent(GrantsOf(times), times[|times| - 1], now);
    }
  }

  ghost function Zeros(n: nat): seq<real> {
    if n == 0 then [] else Zeros(n - 1) + [0.0]
  }

  lemma {:induction false} ZerosRecent(n: nat)
    ensures |Zeros(n)| == n && Recent(Zeros(n), 0.0) == Zeros(n) && RL.CountIn(Zeros(n), 0.0, 0.0) == n
    ensures Recent(Zeros(n), WINDOW) == []
  {
    if n > 0 {
      ZerosRecent(n - 1);
      assert (Zeros(n - 1) + [0.0])[..n - 1] == Zeros(n - 1);
    }
  }

  lemma {:induction false} ZerosGranted(n: nat)
    requires n <= MAX_REQUESTS
    ensures Kept(Zeros(n)) == Zeros(n) && Granted(Zeros(n)) == Zeros(n)
  {
    hide Recent, Kept, Granted, GrantsOf, RL.CountIn;
    if n == 0 {
      NothingAsked(0.0);
    } else {
      ZerosGranted(n - 1);
      ZerosRecent(n - 1);
      AskedAgain(Zeros(n - 1), 0.0);
    }
  }

  /** No reading of the clock is more than `d` seconds behind an earlier one. */
  ghost predicate BackAtMost(times: seq<real>, d: real) {
    forall i, j :: 0 <= i < j < |times| ==> times[j] >= times[i] - d
  }

  ghost predicate LimitKeptFor(d: real) {
    forall times :: BackAtMost(times, d) ==> WindowKept(Granted(times))
  }

  lemma {:induction false} ZerosAreZero(n: nat)
    ensures |Zeros(n)| == n && forall i :: 0 <= i < n ==> Zeros(n)[i] == 0.0
  {
    if n > 0 {
      ZerosAreZero(n - 1);
    }
  }

  /** A full minute of requests at 0, one a minute later, and one when the clock has stepped back by `d`. */
  ghost function BackRun(d: real): seq<real> {
    Zeros(MAX_REQUESTS) + [WINDOW] + [WINDOW - d]
  }

  lemma BackRunIsBack(d: real)
    requires 0.0 < d <= WINDOW
    ensures BackAtMost(BackRun(d), d)
  {
    ZerosAreZero(MAX_REQUESTS);
  }

  lemma {:induction false} ZerosCounted(n: nat, t2: real)
    requires 0.0 <= t2
    ensures RL.CountIn(Zeros(n), 0.0, t2) == n
  {
    if n > 0 {
      ZerosCounted(n - 1, t2);
      assert (Zeros(n - 1) + [0.0])[..|Zeros(n - 1)|] == Zeros(n - 1);
    }
  }

  lemma CountLonger(times: seq<real>, x: real, t1: real, t2: real)
    ensures RL.CountIn(times + [x], t1, t2) == RL.CountIn(times, t1, t2) + (if t1 <= x <= t2 then 1 else 0)
  {
    assert (times + [x])[..|times|] == times;
  }

  /** A request when fewer than 30 are left after pruning. */
  lemma GrantedWhenFew(times: seq<real>, now: real)
    requires |Recent(Kept(times), now)| < MAX_REQUESTS
    ensures Kept(times + [now]) == Recent(Kept(times), now) + [now]
    ensures Granted(times + [now]) == Granted(times) + [now]
  {
    hide Recent;
    AskedAgain(times, now);
  }

  /** All of the requests are granted. */
  lemma BackRunGranted(d: real)
    requires 0.0 < d <= WINDOW
    ensures Granted(BackRun(d)) == BackRun(d)
  {
    hide Recent, Kept, Granted, Zeros;
    var zeros := Zeros(MAX_REQUESTS);
    ZerosGranted(MAX_REQUESTS);
    ZerosRecent(MAX_REQUESTS);
    GrantedWhenFew(zeros, WINDOW);
    RecentOfOne(WINDOW, WINDOW - d);
    GrantedWhenFew(zeros + [WINDOW], WINDOW - d);
  }

  lemma BackRunCounted(d: real)
    requires 0.0 < d <= WINDOW
    ensures RL.CountIn(BackRun(d), 0.0, WINDOW - d) == MAX_REQUESTS + 1
  {
    hide RL.CountIn, Zeros;
    var zeros := Zeros(MAX_REQUESTS);
    ZerosCounted(MAX_REQUESTS, WINDOW - d);
    CountLonger(zeros, WINDOW, 0.0, WINDOW - d);
    CountLonger(zeros + [WINDOW], WINDOW - d, 0.0, WINDOW - d);
  }

  /** The failing case of a clock that goes back, by however little: the list is pruned at the later time,
      and the request at the earlier one is the 31st within less than a minute. */
  lemma ClockBackBreaksLimit(d: real)
    requires 0.0 < d <= WINDOW
    ensures BackAtMost(BackRun(d), d) && !WindowKept(Granted(BackRun(d)))
  {
    hide RL.CountIn, Granted, BackRun;
    BackRunIsBack(d);
    BackRunGranted(d);
    BackRunCounted(d);
  }

  lemma RecentOfOne(request: real, now: real)
    requires now <= request
    ensures Recent([] + [request], now) == [] + [request]
  {
    assert ([] + [request])[..0] == [];
  }

  /** At most 30 requests are granted in every span shorter than a minute, for all clocks that go back by at
      most `d`, if and only if `d` is zero. */
  lemma LimitKeptIff(d: real)
    requires 0.0 <= d
    ensures LimitKeptFor(d) <==> d == 0.0
  {
    hide Granted, WindowKept, BackRun;
    if d == 0.0 {
      forall times | BackAtMost(times, 0.0)
        ensures WindowKept(Granted(times))
      {
        assert NonDecreasing(times);
        PruningIsSafe(times);
      }
    } else {
      var step := if d < WINDOW then d else WINDOW;
      ClockBackBreaksLimit(step);
      assert BackAtMost(BackRun(step), d);
    }
  }

  /** What is known of one caller at a moment of the clock: the list kept is the history filtered at
      some earlier check, and the history respects the limit. */
  ghost predicate CallerOk(requests: seq<real>, history: seq<real>, clock: real) {
    WindowKept(history) && exists t :: t <= clock && Tracks(requests, history, t)
  }

  lemma CallerLater(requests: seq<real>, history: seq<real>, clock: real, now: real)
    requires CallerOk(requests, history, clock) && clock <= now
    ensures CallerOk(requests, history, now)
  {
  }

  lemma NewCallerOk(clock: real)
    ensures CallerOk([], [], clock)
  {
    assert Tracks([], [], clock);
  }

  function Listed(lists: map<string, seq<real>>, caller: string): seq<real> {
    if caller in lists then lists[caller] else []
  }

  ghost predicate AllCallersOk(lists: map<string, seq<real>>, grants: map<string, seq<real>>, clock: real) {
    forall c :: CallerOk(Listed(lists, c), Listed(grants, c), clock)
  }

  lemma CheckStep(requests: seq<real>, history: seq<real>, clock: real, now: real)
    requires CallerOk(requests, history, clock) && clock <= now
    ensures Recent(requests, now) == Recent(history, now)
    ensures CallerOk(Recent(requests, now), history, now) && Tracks(Recent(requests, now), history, now)
    ensures |Recent(history, now)| < MAX_REQUESTS ==>
              CallerOk(Recent(requests, now) + [now], history + [now], now)
              && Tracks(Recent(requests, now) + [now], history + [now], now)
  {
    var t :| t <= clock && Tracks(requests, history, t);
    RecentOfRecent(history, t, now);
    assert Tracks(Recent(requests, now), history, now);
    if |Recent(history, now)| < MAX_REQUESTS {
      GrantKeepsWindow(history, now);
      RecentAppend(history, now);
      assert Tracks(Recent(requests, now) + [now], history + [now], now);
    }
  }

  /** Pruning the list of one caller, and granting when it is short, keeps what is known of all. */
  lemma CheckedOk(lists: map<string, seq<real>>, grants: map<string, seq<real>>, caller: string, clock: real, now: real)
    requires AllCallersOk(lists, grants, clock) && clock <= now
    ensures var recent, history := Recent(Listed(lists, caller), now), Listed(grants, caller);
            && recent == Recent(history, now)
            && Tracks(recent, history, now)
            && AllCallersOk(lists[caller := recent], grants[caller := history], now)
            && (|recent| < MAX_REQUESTS ==>
                  && Tracks(recent + [now], history + [now], now)
                  && AllCallersOk(lists[caller := recent + [now]], grants[caller := history + [now]], now))
  {
    hide CallerOk, Recent, Tracks;
    var recent, history := Recent(Listed(lists, caller), now), Listed(grants, caller);
    assert CallerOk(Listed(lists, caller), history, clock);
    CheckStep(Listed(lists, caller), history, clock, now);
    AllLater(lists, grants, clock, now);
    OneCallerOk(lists, grants, caller, recent, history, now);
    if |recent| < MAX_REQUESTS {
      OneCallerOk(lists, grants, caller, recent + [now], history + [now], now);
    }
  }

  lemma OneCallerOk(lists: map<string, seq<real>>, grants: map<string, seq<real>>, caller: string,
                    requests: seq<real>, history: seq<real>, now: real)
    requires AllCallersOk(lists, grants, now) && CallerOk(requests, history, now)
    ensures AllCallersOk(lists[caller := requests], grants[caller := history], now)
  {
    hide CallerOk;
    var lists', grants' := lists[caller := requests], grants[caller := history];
    forall c
      ensures CallerOk(Listed(lists', c), Listed(grants', c), now)
    {
      assert c != caller ==> CallerOk(Listed(lists, c), Listed(grants, c), now);
    }
  }

  lemma AllLater(lists: map<string, seq<real>>, grants: map<string, seq<real>>, clock: real, now: real)
    requires AllCallersOk(lists, grants, clock) && clock <= now
    ensures AllCallersOk(lists, grants, now)
  {
    hide CallerOk;
    forall c
      ensures CallerOk(Listed(lists, c), Listed(grants, c), now)
    {
      assert CallerOk(Listed(lists, c), Listed(grants, c), clock);
      CallerLater(Listed(lists, c), Listed(grants, c), clock, now);
    }
  }

  // ---------- the manager ----------

  datatype Reply = NoClient | Error | NotFound | Found(secret: string)

  datatype Cached = Cached(secret: string, expiry: real)

  datatype Fetch = Fetch(secret: string, time: real)

  /** A cached secret is the one last fetched, and expires a lifetime after that at the latest. */
  ghost predicate CacheOk(cache: map<string, Cached>, fetches: map<string, Fetch>) {
    forall n :: n in cache ==> n in fetches && cache[n].secret == fetches[n].secret
                               && cache[n].expiry <= fetches[n].time + CACHE_TTL
  }

  /** What a hit returns was fetched less than a lifetime ago. */
  lemma HitIsFresh(cache: map<string, Cached>, fetches: map<string, Fetch>, name: string, now: real)
    requires name in cache && now < cache[name].expiry
    ensures CacheOk(cache, fetches) ==>
              name in fetches && cache[name].secret == fetches[name].secret && now - fetches[name].time < CACHE_TTL
  {
  }

  lemma StoreKeepsCache(cache: map<string, Cached>, fetches: map<string, Fetch>, name: string, secret: string,
                        looked: real, answered: real)
    ensures CacheOk(cache, fetches) && looked <= answered ==>
              CacheOk(cache[name := Cached(secret, looked + CACHE_TTL)], fetches[name := Fetch(secret, answered)])
  {
  }

  class VaultSecretManager {
    var cache: map<string, Cached>
    var rateLimits: map<string, seq<real>>

    /** Every grant of every caller, the last clock reading, whether the clock has never gone back, and
        the last fetch of every secret. */
    ghost var grants: map<string, seq<real>>
    ghost var clock: real
    ghost var steady: bool
    ghost var fetches: map<string, Fetch>

    ghost predicate Valid()
      reads this
    {
      && (steady ==> AllCallersOk(rateLimits, grants, clock))
      && (steady ==> CacheOk(cache, fetches))
    }

    constructor (now: real)
      ensures Valid() && steady && clock == now && grants == map[] && rateLimits == map[] && cache == map[]
    {
      cache, rateLimits, grants, clock, steady, fetches := map[], map[], map[], now, true, map[];
      NewCallerOk(now);
    }

    /** The list is pruned to the last minute, and the request is granted if and only if fewer than 30
        are left. While the clock has not gone back, that list is the whole history filtered. */
    method CheckRateLimit(caller: string, now: real) returns (granted: bool)
      requires Valid()
      modifies this`rateLimits, this`grants, this`clock, this`steady
      ensures Valid() && clock == now && steady == (old(steady) && old(clock) <= now)
      ensures granted <==> CountAfter(Listed(old(rateLimits), caller), now - 60.0) < 30
      ensures rateLimits == old(rateLimits)[caller := Recent(Listed(old(rateLimits), caller), now)
                                            + (if granted then [now] else [])]
      ensures grants == old(grants)[caller := Listed(old(grants), caller) + (if granted then [now] else [])]
      ensures steady ==> Recent(Listed(old(rateLimits), caller), now) == Recent(Listed(old(grants), caller), now)
      ensures steady ==> Tracks(rateLimits[caller], grants[caller], now)
    {
      hide CallerOk, Tracks, Recent, AllCallersOk, CacheOk, CountAfter;
      RecentCounted(Listed(rateLimits, caller), now);
      var requests := if caller in rateLimits then rateLimits[caller] else [];
      ghost var history := Listed(grants, caller);
      if steady && clock <= now {
        CheckedOk(rateLimits, grants, caller, clock, now);
      }
      requests := Recent(requests, now);
      rateLimits := rateLimits[caller := requests];
      steady, clock := steady && clock <= now, now;
      granted := |requests| < MAX_REQUESTS;
      if granted {
        rateLimits := rateLimits[caller := requests + [now]];
        assert rateLimits == old(rateLimits)[caller := requests + [now]];
      }
      grants := grants[caller := history + (if granted then [now] else [])];
      assert requests + [] == requests && history + [] == history;
    }

    /** `asked` and `looked` are the clock at the rate limit and at the cache, `answered` the time of
        the Vault's answer. */
    method GetSecret(name: string, caller: string, asked: real, looked: real, answered: real, reply: Reply)
      returns (secret: Option<string>, hit: bool)
      requires Valid()
      modifies this
      ensures Valid() && clock == answered && steady == (old(steady) && old(clock) <= asked <= looked <= answered)
      ensures var granted := CountAfter(Listed(old(rateLimits), caller), asked - 60.0) < 30;
              && (hit <==> granted && name in old(cache) && looked < old(cache)[name].expiry)
              && secret == if !granted then None
                           else if hit then Some(old(cache)[name].secret)
                           else if reply.Found? && reply.secret != "" then Some(reply.secret)
                           else None
      ensures if hit || secret == None then cache == old(cache) && fetches == old(fetches)
              else cache == old(cache)[name := Cached(secret.value, looked + 60.0)]
                   && fetches == old(fetches)[name := Fetch(secret.value, answered)]
      ensures steady && hit ==>
                name in fetches && secret == Some(fetches[name].secret) && looked - fetches[name].time < 60.0
    {
      hide CallerOk, Recent, AllCallersOk, CacheOk, Listed, CountAfter;
      secret, hit := None, false;
      var granted := CheckRateLimit(caller, asked);
      if steady && asked <= looked <= answered {
        AllLater(rateLimits, grants, clock, answered);
      }
      steady, clock := steady && asked <= looked <= answered, answered;
      if !granted {
        return;
      }
      if name in cache && looked < cache[name].expiry {
        HitIsFresh(cache, fetches, name, looked);
        return Some(cache[name].secret), true;
      }
      if reply.Found? && reply.secret != "" {
        StoreKeepsCache(cache, fetches, name, reply.secret, looked, answered);
        cache := cache[name := Cached(reply.secret, looked + CACHE_TTL)];
        fetches := fetches[name := Fetch(reply.secret, answered)];
        secret := Some(reply.secret);
      }
    }
  }
}
