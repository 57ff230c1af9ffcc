/** The limiter's answers, told from the requests it allowed. */
module RateLimiterLaws {
  import opened RateLimiter
  import opened Sequences

  /** The requests for a key that a run allowed, in order. */
  function Allowed(requests: seq<Request>, key: string, evicting: bool): (allowed: seq<Request>)
    ensures forall r | r in allowed :: r in requests && r.key == key
  {
    if requests == [] then []
    else
      var last := |requests| - 1;
      Allowed(requests[..last], key, evicting)
      + if requests[last].key == key && Answer(requests, last, evicting) then [requests[last]] else []
  }

  /** The allowed request that opened the last window: the first one, and from then on each that
      comes at least its own window after the opener before it. */
  function LastOpener(allowed: seq<Request>): (opener: nat)
    requires allowed != []
    ensures opener < |allowed|
  {
    var last := |allowed| - 1;
    if last == 0 then 0
    else
      var before := LastOpener(allowed[..last]);
      if allowed[last].now - allowed[before].now >= allowed[last].policy.windowSeconds then last else before
  }

  /** How many requests the window holds that a request arrives in: those allowed since its opener,
      or none if the opener is at least a window ago. */
  function InWindow(allowed: seq<Request>, request: Request): nat {
    if allowed == [] then 0
    else
      var opener := LastOpener(allowed);
      if request.now - allowed[opener].now >= request.policy.windowSeconds then 0 else |allowed| - opener
  }

  // ----- the table remembers the allowed requests

  predicate Remembers(windows: Windows, key: string, allowed: seq<Request>) {
    if allowed == [] then key !in windows
    else
      && key in windows
      && windows[key] == Window(allowed[LastOpener(allowed)].now, |allowed| - LastOpener(allowed))
  }

  lemma CountRemembers(windows: Windows, request: Request, allowed: seq<Request>)
    requires Remembers(windows, request.key, allowed)
    ensures Count(windows, request).0 <==> InWindow(allowed, request) < request.policy.requests
    ensures Remembers(Count(windows, request).1, request.key,
                      if Count(windows, request).0 then allowed + [request] else allowed)
  {
    var more := allowed + [request];
    assert more[..|allowed|] == allowed && more[|allowed|] == request;
  }

  lemma OthersRemember(windows: Windows, request: Request, key: string, allowed: seq<Request>)
    requires Remembers(windows, key, allowed) && key != request.key
    ensures Remembers(Count(windows, request).1, key, allowed)
  {
  }

  lemma RunRemembersStep(requests: seq<Request>, key: string)
    requires requests != []
    requires
      var shorter := requests[..|requests| - 1];
      Remembers(Final(map[], shorter, false), key, Allowed(shorter, key, false))
    ensures Remembers(Final(map[], requests, false), key, Allowed(requests, key, false))
  {
    var last := |requests| - 1;
    var before, allowed := Final(map[], requests[..last], false), Allowed(requests[..last], key, false);
    assert Final(map[], requests, false) == Count(before, requests[last]).1;
    assert Answer(requests, last, false) == Count(before, requests[last]).0;
    if requests[last].key == key {
      CountRemembers(before, requests[last], allowed);
      assert allowed + [] == allowed;
    } else {
      OthersRemember(before, requests[last], key, allowed);
      assert allowed + [] == allowed;
    }
  }

  lemma {:induction false} RunRemembers(requests: seq<Request>, key: string)
    ensures Remembers(Final(map[], requests, false), key, Allowed(requests, key, false))
  {
    if requests == [] {
    } else {
      RunRemembers(requests[..|requests| - 1], key);
      RunRemembersStep(requests, key);
    }
  }

  lemma {:induction false} SameAllowed(requests: seq<Request>, key: string)
    requires ClockNeverFalls(requests)
    requires forall request | request in requests :: request.policy.windowSeconds <= MINUTE
    ensures Allowed(requests, key, true) == Allowed(requests, key, false)
  {
    if requests == [] {
    } else {
      var last := |requests| - 1;
      assert forall r | r in requests[..last] :: r in requests;
      SameAllowed(requests[..last], key);
      EvictionIsInvisible(requests, last);
    }
  }

  /** Without eviction, whatever the clock does: a request is denied if and only if its window holds
      its limit already. */
  lemma PlainDenial(requests: seq<Request>, i: nat)
    requires i < |requests|
    ensures !Answer(requests, i, false) <==>
              InWindow(Allowed(requests[..i], requests[i].key, false), requests[i]) >= requests[i].policy.requests
  {
    RunRemembers(requests[..i], requests[i].key);
    CountRemembers(Final(map[], requests[..i], false), requests[i], Allowed(requests[..i], requests[i].key, false));
  }

  lemma PrefixIsRun(requests: seq<Request>, i: nat)
    requires i <= |requests| && ClockNeverFalls(requests)
    requires forall request | request in requests :: request.policy.windowSeconds <= MINUTE
    ensures ClockNeverFalls(requests[..i])
    ensures forall request | request in requests[..i] :: request.policy.windowSeconds <= MINUTE
  {
    assert forall request | request in requests[..i] :: request in requests;
  }

  /** Over every run with a clock that never falls and windows of at most sixty seconds, a request is
      denied if and only if as many requests as its limit have been allowed for its key since the
      opener of a window that began less than its window ago. */
  lemma DeniedExactlyWhen(requests: seq<Request>, i: nat)
    requires i < |requests| && ClockNeverFalls(requests)
    requires forall request | request in requests :: request.policy.windowSeconds <= MINUTE
    ensures !Answer(requests, i, true) <==>
              InWindow(Allowed(requests[..i], requests[i].key, true), requests[i]) >= requests[i].policy.requests
  {
    PrefixIsRun(requests, i);
    SameAllowed(requests[..i], requests[i].key);
    EvictionIsInvisible(requests, i);
    PlainDenial(requests, i);
  }

  // ----- corollaries

  /** A request at least a window after the key's last allowed one, or the key's first, is allowed. */
  lemma AllowedAfterAWindow(requests: seq<Request>, i: nat)
    requires i < |requests| && ClockNeverFalls(requests) && requests[i].policy.requests >= 1
    requires forall request | request in requests :: request.policy.windowSeconds <= MINUTE
    requires
      var past := Allowed(requests[..i], requests[i].key, true);
      past == [] || requests[i].now - past[|past| - 1].now >= requests[i].policy.windowSeconds
    ensures Answer(requests, i, true)
  {
    DeniedExactlyWhen(requests, i);
    PrefixIsRun(requests, i);
    AllowedInOrder(requests[..i], requests[i].key, true);
    WindowIsOver(Allowed(requests[..i], requests[i].key, true), requests[i]);
  }

  lemma WindowIsOver(past: seq<Request>, request: Request)
    requires ClockNeverFalls(past)
    requires past == [] || request.now - past[|past| - 1].now >= request.policy.windowSeconds
    ensures InWindow(past, request) == 0
  {
  }

  lemma {:induction false} AllowedInOrder(requests: seq<Request>, key: string, evicting: bool)
    requires ClockNeverFalls(requests)
    ensures ClockNeverFalls(Allowed(requests, key, evicting))
  {
    if requests == [] {
    } else {
      var last := |requests| - 1;
      AllowedInOrder(requests[..last], key, evicting);
      var before := Allowed(requests[..last], key, evicting);
      forall i | 0 <= i < |before|
        ensures before[i].now <= requests[last].now
      {
        assert before[i] in requests[..last];
      }
    }
  }

  lemma DenialWritesNothing(requests: seq<Request>, d: nat)
    requires d < |requests| && !Answer(requests, d, false)
    ensures Final(map[], requests[..d + 1], false) == Final(map[], requests[..d], false)
  {
    TakeTake(requests, d);
  }

  /** A run without the request at index `d`. */
  function Without(requests: seq<Request>, d: nat): seq<Request>
    requires d < |requests|
  {
    requests[..d] + requests[d + 1..]
  }

  lemma FinalLonger(requests: seq<Request>, more: Request)
    ensures Final(map[], requests + [more], false) == Count(Final(map[], requests, false), more).1
  {
    assert (requests + [more])[..|requests|] == requests;
  }

  lemma WithoutLonger(requests: seq<Request>, more: Request, d: nat)
    requires d < |requests|
    ensures Without(requests + [more], d) == Without(requests, d) + [more]
  {
  }

  lemma {:induction false} SameTableWithout(requests: seq<Request>, d: nat)
    requires d < |requests| && !Answer(requests, d, false)
    ensures Final(map[], Without(requests, d), false) == Final(map[], requests, false)
    decreases |requests|
  {
    var last := |requests| - 1;
    var shorter := requests[..last];
    InitAndLast(requests);
    if d == last {
      DenialWritesNothing(requests, d);
      assert Without(requests, d) == shorter && requests[..d + 1] == requests;
    } else {
      assert shorter[..d] == requests[..d];
      SameTableWithout(shorter, d);
      WithoutLonger(shorter, requests[last], d);
      FinalLonger(shorter, requests[last]);
      FinalLonger(Without(shorter, d), requests[last]);
    }
  }

  lemma PlainDenialLeavesNoTrace(requests: seq<Request>, d: nat, j: nat)
    requires d < j < |requests| && !Answer(requests, d, false)
    ensures Answer(Without(requests, d), j - 1, false) == Answer(requests, j, false)
  {
    var before := requests[..j];
    assert before[..d] == requests[..d];
    SameTableWithout(before, d);
    assert Without(requests, d)[..j - 1] == Without(before, d);
    assert Without(requests, d)[j - 1] == requests[j];
  }

  lemma WithoutIsRun(requests: seq<Request>, d: nat)
    requires d < |requests| && ClockNeverFalls(requests)
    requires forall request | request in requests :: request.policy.windowSeconds <= MINUTE
    ensures ClockNeverFalls(Without(requests, d))
    ensures forall request | request in Without(requests, d) :: request.policy.windowSeconds <= MINUTE
  {
    var shorter := Without(requests, d);
    forall i | 0 <= i < |shorter|
      ensures shorter[i] == requests[if i < d then i else i + 1]
    {
    }
  }

  /** A denied request leaves no trace: taken out of a run, it changes no other answer. */
  lemma DenialLeavesNoTrace(requests: seq<Request>, d: nat, j: nat)
    requires d < j < |requests| && ClockNeverFalls(requests) && !Answer(requests, d, true)
    requires forall request | request in requests :: request.policy.windowSeconds <= MINUTE
    ensures Answer(Without(requests, d), j - 1, true) == Answer(requests, j, true)
  {
    EvictionIsInvisible(requests, d);
    EvictionIsInvisible(requests, j);
    PlainDenialLeavesNoTrace(requests, d, j);
    WithoutIsRun(requests, d);
    EvictionIsInvisible(Without(requests, d), j - 1);
  }
}
