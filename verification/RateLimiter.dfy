/** The in-memory rate limiter: a fixed window per key, with old entries dropped once the table
    grows past a threshold. Times are exact reals in seconds. */
module RateLimiter {

  datatype RouteLimit = RouteLimit(requests: nat, windowSeconds: real, maxBodyBytes: nat)

  const MINUTE := 60.0
  const EVICTION_THRESHOLD := 10000

  const POLICIES: map<string, RouteLimit> := map[
    "investigations" := RouteLimit(20, 60.0, 16384),
    "scans" := RouteLimit(3, 60.0, 8192),
    "simulations" := RouteLimit(20, 60.0, 16384),
    "proposals" := RouteLimit(10, 60.0, 16384),
    "reports" := RouteLimit(30, 60.0, 4096),
    "default" := RouteLimit(120, 60.0, 65536)]

  datatype Window = Window(started: real, count: nat)

  type Windows = map<string, Window>

  datatype Request = Request(key: string, policy: RouteLimit, now: real)

  // ----- the limiter as a function

  function Evict(windows: Windows, now: real): Windows {
    if |windows| > EVICTION_THRESHOLD
    then map key | key in windows && now - windows[key].started < MINUTE :: windows[key]
    else windows
  }

  /** The window a request is counted in. */
  function WindowFor(windows: Windows, request: Request): Window {
    var found := if request.key in windows then windows[request.key] else Window(request.now, 0);
    if request.now - found.started >= request.policy.windowSeconds then Window(request.now, 0) else found
  }

  /** The answer and the table after it, for a limiter that never evicts. */
  function Count(windows: Windows, request: Request): (bool, Windows) {
    var window := WindowFor(windows, request);
    if window.count >= request.policy.requests then (false, windows)
    else (true, windows[request.key := Window(window.started, window.count + 1)])
  }

  function Admit(windows: Windows, request: Request): (bool, Windows) {
    Count(Evict(windows, request.now), request)
  }

  class InMemoryRateLimiter {
    var windows: Windows

    constructor ()
      ensures windows == map[]
    {
      windows := map[];
    }

    method Reset()
      modifies this
      ensures windows == map[]
    {
      windows := map[];
    }

    method Allow(key: string, policy: RouteLimit, now: real) returns (allowed: bool)
      modifies this
      ensures (allowed, windows) == Admit(old(windows), Request(key, policy, now))
    {
      if |windows| > EVICTION_THRESHOLD {
        windows := map item | item in windows && now - windows[item].started < MINUTE :: windows[item];
      }
      var started, count := now, 0;
      if key in windows {
        started, count := windows[key].started, windows[key].count;
      }
      if now - started >= policy.windowSeconds {
        started, count := now, 0;
      }
      if count >= policy.requests {
        return false;
      }
      windows := windows[key := Window(started, count + 1)];
      return true;
    }
  }

  // ----- runs

  function Final(windows: Windows, requests: seq<Request>, evicting: bool): Windows {
    if requests == [] then windows
    else
      var last := |requests| - 1;
      var before := Final(windows, requests[..last], evicting);
      if evicting then Admit(before, requests[last]).1 else Count(before, requests[last]).1
  }

  /** The answer to request `i` of a run. */
  function Answer(requests: seq<Request>, i: nat, evicting: bool): bool
    requires i < |requests|
  {
    var before := Final(map[], requests[..i], evicting);
    if evicting then Admit(before, requests[i]).0 else Count(before, requests[i]).0
  }

  predicate ClockNeverFalls(requests: seq<Request>) {
    forall i, j | 0 <= i < j < |requests| :: requests[i].now <= requests[j].now
  }

  // ----- eviction is invisible

  /** The evicting table keeps every entry that could still matter at `now`. */
  ghost predicate Tracks(evicted: Windows, full: Windows, now: real) {
    && (forall key | key in evicted :: key in full && full[key] == evicted[key])
    && (forall key | key in full && key !in evicted :: now - full[key].started >= MINUTE)
  }

  lemma EvictTracks(evicted: Windows, full: Windows, now: real)
    requires Tracks(evicted, full, now)
    ensures Tracks(Evict(evicted, now), full, now)
  {
  }

  lemma CountTracks(evicted: Windows, full: Windows, request: Request)
    requires Tracks(evicted, full, request.now) && request.policy.windowSeconds <= MINUTE
    ensures Count(evicted, request).0 == Count(full, request).0
    ensures Tracks(Count(evicted, request).1, Count(full, request).1, request.now)
  {
  }

  lemma {:induction false} RunTracks(requests: seq<Request>, now: real)
    requires ClockNeverFalls(requests)
    requires forall request | request in requests :: request.policy.windowSeconds <= MINUTE && request.now <= now
    ensures Tracks(Final(map[], requests, true), Final(map[], requests, false), now)
    decreases |requests|
  {
    if requests == [] {
    } else {
      var last := |requests| - 1;
      var request := requests[last];
      var shorter := requests[..last];
      assert request in requests;
      forall r | r in shorter
        ensures r.policy.windowSeconds <= MINUTE && r.now <= request.now
      {
        var i :| 0 <= i < last && shorter[i] == r;
        assert requests[i] == r && requests[i] in requests;
      }
      RunTracks(shorter, request.now);
      var evicted, full := Final(map[], shorter, true), Final(map[], shorter, false);
      EvictTracks(evicted, full, request.now);
      CountTracks(Evict(evicted, request.now), full, request);
    }
  }

  /** Over every run with a clock that never falls and windows of at most sixty seconds, the
      limiter that evicts answers every request as one that never evicts. */
  lemma EvictionIsInvisible(requests: seq<Request>, i: nat)
    requires ClockNeverFalls(requests) && i < |requests|
    requires forall request | request in requests :: request.policy.windowSeconds <= MINUTE
    ensures Answer(requests, i, true) == Answer(requests, i, false)
  {
    var before, request := requests[..i], requests[i];
    forall r | r in before
      ensures r.policy.windowSeconds <= MINUTE && r.now <= request.now
    {
      var k :| 0 <= k < i && before[k] == r;
      assert requests[k] == r && requests[k] in requests;
    }
    assert request in requests;
    RunTracks(before, request.now);
    var evicted, full := Final(map[], before, true), Final(map[], before, false);
    EvictTracks(evicted, full, request.now);
    CountTracks(Evict(evicted, request.now), full, request);
  }

  /** Every policy the service uses has such a window. */
  lemma PoliciesFitEviction(group: string)
    requires group in POLICIES
    ensures POLICIES[group].windowSeconds <= MINUTE && POLICIES[group].requests >= 1
  {
  }

  // ----- the bound on a span of one window

  predicate InSpan(t: real, start: real, length: real) {
    start <= t < start + length
  }

  /** How many of a run's requests for `key` inside the span were allowed. */
  function AllowedIn(requests: seq<Request>, key: string, start: real, length: real, evicting: bool): nat {
    if requests == [] then 0
    else
      var last := |requests| - 1;
      AllowedIn(requests[..last], key, start, length, evicting)
      + if requests[last].key == key && InSpan(requests[last].now, start, length) && Answer(requests, last, evicting)
        then 1 else 0
  }

  /** The count inside the span against the window the key is in. */
  predicate SpanFits(windows: Windows, key: string, policy: RouteLimit, start: real, allowed: nat) {
    && allowed <= 2 * policy.requests - 1
    && (key !in windows ==> allowed == 0)
    && (key in windows ==>
          && 1 <= windows[key].count <= policy.requests
          && (windows[key].started < start ==> allowed <= windows[key].count - 1)
          && (InSpan(windows[key].started, start, policy.windowSeconds) ==>
                allowed <= policy.requests - 1 + windows[key].count))
  }

  ghost predicate FixedPolicy(requests: seq<Request>, key: string, policy: RouteLimit) {
    forall request | request in requests :: request.key == key ==> request.policy == policy
  }

  /** The invariant of a run: the count fits the key's window, and nothing in the future. */
  ghost predicate SpanHolds(requests: seq<Request>, key: string, policy: RouteLimit, start: real, now: real) {
    var windows := Final(map[], requests, false);
    var allowed := AllowedIn(requests, key, start, policy.windowSeconds, false);
    && SpanFits(windows, key, policy, start, allowed)
    && (key in windows ==> windows[key].started <= now)
    && (allowed > 0 ==> start <= now)
  }

  lemma SpanStep(requests: seq<Request>, key: string, policy: RouteLimit, start: real)
    requires requests != [] && policy.requests >= 1 && policy.windowSeconds > 0.0
    requires
      var last := |requests| - 1;
      && SpanHolds(requests[..last], key, policy, start, requests[last].now)
      && (requests[last].key == key ==> requests[last].policy == policy)
    ensures SpanHolds(requests, key, policy, start, requests[|requests| - 1].now)
  {
  }

  lemma {:induction false} SpanBound(requests: seq<Request>, key: string, policy: RouteLimit, start: real, now: real)
    requires ClockNeverFalls(requests) && FixedPolicy(requests, key, policy)
    requires policy.requests >= 1 && policy.windowSeconds > 0.0
    requires requests != [] ==> requests[|requests| - 1].now <= now
    ensures SpanHolds(requests, key, policy, start, now)
    decreases |requests|
  {
    if requests == [] {
    } else {
      var last := |requests| - 1;
      var shorter := requests[..last];
      assert requests[last] in requests && forall r | r in shorter :: r in requests;
      SpanBound(shorter, key, policy, start, requests[last].now);
      SpanStep(requests, key, policy, start);
    }
  }

  lemma {:induction false} SameAnswersSameCount(requests: seq<Request>, key: string, start: real, length: real)
    requires ClockNeverFalls(requests)
    requires forall request | request in requests :: request.policy.windowSeconds <= MINUTE
    ensures AllowedIn(requests, key, start, length, true) == AllowedIn(requests, key, start, length, false)
  {
    if requests == [] {
    } else {
      var last := |requests| - 1;
      assert forall r | r in requests[..last] :: r in requests;
      SameAnswersSameCount(requests[..last], key, start, length);
      EvictionIsInvisible(requests, last);
    }
  }

  /** For a key with a fixed policy of N >= 1 requests per window, every half-open span as long as
      the window holds at most 2N - 1 allowed requests, evictions and other keys included. */
  lemma AtMostTwiceLessOne(requests: seq<Request>, key: string, policy: RouteLimit, start: real)
    requires ClockNeverFalls(requests) && FixedPolicy(requests, key, policy)
    requires policy.requests >= 1 && policy.windowSeconds > 0.0
    requires forall request | request in requests :: request.policy.windowSeconds <= MINUTE
    ensures AllowedIn(requests, key, start, policy.windowSeconds, true) <= 2 * policy.requests - 1
  {
    SameAnswersSameCount(requests, key, start, policy.windowSeconds);
    SpanBound(requests, key, policy, start, if requests == [] then 0.0 else requests[|requests| - 1].now);
  }

  // ----- the bound is reached

  /** One request at time zero, N - 1 at half a window, N at the end of the window. */
  function BurstTime(policy: RouteLimit, k: nat): real {
    if k == 0 then 0.0
    else if k < policy.requests then policy.windowSeconds / 2.0
    else policy.windowSeconds
  }

  function Burst(key: string, policy: RouteLimit, k: nat): (burst: seq<Request>)
    ensures |burst| == k
    ensures forall i | 0 <= i < k :: burst[i] == Request(key, policy, BurstTime(policy, i))
  {
    seq(k, i requires i >= 0 => Request(key, policy, BurstTime(policy, i)))
  }

  function BurstWindows(key: string, policy: RouteLimit, k: nat): Windows {
    if k == 0 then map[]
    else if k <= policy.requests then map[key := Window(0.0, k)]
    else map[key := Window(policy.windowSeconds, k - policy.requests)]
  }

  lemma BurstStep(key: string, policy: RouteLimit, k: nat)
    requires policy.requests >= 1 && policy.windowSeconds > 0.0 && k < 2 * policy.requests
    ensures Count(BurstWindows(key, policy, k), Request(key, policy, BurstTime(policy, k)))
         == (true, BurstWindows(key, policy, k + 1))
    ensures InSpan(BurstTime(policy, k), policy.windowSeconds / 2.0, policy.windowSeconds) <==> k > 0
  {
    var w := policy.windowSeconds;
    assert 0.0 < w / 2.0 < w;
    var window := WindowFor(BurstWindows(key, policy, k), Request(key, policy, BurstTime(policy, k)));
    assert window.count < policy.requests;
    assert BurstWindows(key, policy, k)[key := Window(window.started, window.count + 1)]
        == map[key := Window(window.started, window.count + 1)];
  }

  lemma BurstGrows(key: string, policy: RouteLimit, k: nat)
    ensures Burst(key, policy, k + 1)[..k] == Burst(key, policy, k)
    ensures Burst(key, policy, k + 1)[k] == Request(key, policy, BurstTime(policy, k))
  {
  }

  lemma {:induction false} BurstIsAllowed(key: string, policy: RouteLimit, k: nat)
    requires policy.requests >= 1 && policy.windowSeconds > 0.0 && k <= 2 * policy.requests
    ensures Final(map[], Burst(key, policy, k), false) == BurstWindows(key, policy, k)
    ensures AllowedIn(Burst(key, policy, k), key, policy.windowSeconds / 2.0, policy.windowSeconds, false)
         == if k == 0 then 0 else k - 1
  {
    if k == 0 {
    } else {
      BurstIsAllowed(key, policy, k - 1);
      BurstStep(key, policy, k - 1);
      BurstGrows(key, policy, k - 1);
    }
  }

  /** For every N and every window there is a run and a span with exactly 2N - 1 allowed. */
  lemma BoundIsReached(key: string, policy: RouteLimit)
    requires policy.requests >= 1 && 0.0 < policy.windowSeconds <= MINUTE
    ensures
      var requests := Burst(key, policy, 2 * policy.requests);
      && ClockNeverFalls(requests) && FixedPolicy(requests, key, policy)
      && AllowedIn(requests, key, policy.windowSeconds / 2.0, policy.windowSeconds, true) == 2 * policy.requests - 1
  {
    assert policy.windowSeconds / 2.0 < policy.windowSeconds;
    BurstIsAllowed(key, policy, 2 * policy.requests);
    SameAnswersSameCount(Burst(key, policy, 2 * policy.requests), key, policy.windowSeconds / 2.0,
                         policy.windowSeconds);
  }
}
