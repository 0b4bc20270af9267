/**
  The gateway's rate limiter (internal/gateway/pipeline.go): one counter per application and endpoint,
  created by the first admitted request with an expiry 60 seconds later, and read and incremented in one
  atomic script.  Times are in milliseconds.

  Whether a counter is still there at the very instant of its expiry is left open (inclusive): every
  bound below holds either way.
 */
module RateLimit {
  import opened Outcomes
  import opened Uuids

  const WINDOW := 60_000

  datatype Key = Key(app: Uuid, endpoint: Uuid)

  datatype Counter = Counter(value: int, expires: int)

  /** The store's key text. */
  function KeyText(key: Key): string {
    "rate:" + UuidText(key.app) + ":" + UuidText(key.endpoint)
  }

  lemma SplitEqual(a1: string, b1: string, a2: string, b2: string)
    requires a1 + b1 == a2 + b2 && |a1| == |a2|
    ensures a1 == a2 && b1 == b2
  {
    assert (a1 + b1)[..|a1|] == a1 && (a1 + b1)[|a1|..] == b1;
    assert (a2 + b2)[..|a2|] == a2 && (a2 + b2)[|a2|..] == b2;
  }

  /** Different applications or endpoints never share a counter. */
  lemma KeyTextInjective(k1: Key, k2: Key)
    ensures KeyText(k1) == KeyText(k2) <==> k1 == k2
    ensures KeyText(k1)[..5] == "rate:" && KeyText(k1)[5..41] == UuidText(k1.app) && |KeyText(k1)| == 78
  {
    hide UuidText;
    if KeyText(k1) == KeyText(k2) {
      SplitEqual("rate:" + UuidText(k1.app) + ":", UuidText(k1.endpoint), "rate:" + UuidText(k2.app) + ":",
        UuidText(k2.endpoint));
      SplitEqual("rate:" + UuidText(k1.app), ":", "rate:" + UuidText(k2.app), ":");
      SplitEqual("rate:", UuidText(k1.app), "rate:", UuidText(k2.app));
      UuidTextInjective(k1.app, k2.app);
      UuidTextInjective(k1.endpoint, k2.endpoint);
    }
  }

  // ----- One counter -----

  predicate Live(c: Option<Counter>, now: int, inclusive: bool) {
    c.Some? && (now < c.value.expires || (inclusive && now == c.value.expires))
  }

  /** The script: refuse at the limit, else count the request, opening a window when there is none. */
  function Check(c: Option<Counter>, limit: int, now: int, inclusive: bool): (r: (Option<Counter>, bool)) {
    var current := if Live(c, now, inclusive) then c.value.value else 0;
    if current >= limit then (c, false)
    else if Live(c, now, inclusive) then (Some(c.value.(value := current + 1)), true)
    else (Some(Counter(1, now + WINDOW)), true)
  }

  function After(c: Option<Counter>, limit: int, times: seq<int>, inclusive: bool): Option<Counter>
    decreases |times|
  {
    if times == [] then c else After(Check(c, limit, times[0], inclusive).0, limit, times[1..], inclusive)
  }

  /** Which requests of a sequence are admitted. */
  function Decisions(c: Option<Counter>, limit: int, times: seq<int>, inclusive: bool): (d: seq<bool>)
    ensures |d| == |times|
    decreases |times|
  {
    if times == [] then []
    else
      var r := Check(c, limit, times[0], inclusive);
      [r.1] + Decisions(r.0, limit, times[1..], inclusive)
  }

  predicate NonDecreasing(times: seq<int>) {
    forall i, j :: 0 <= i < j < |times| ==> times[i] <= times[j]
  }

  /** How many admitted requests fall into the half-open interval of sixty seconds from start. */
  function Admitted(times: seq<int>, decisions: seq<bool>, start: int): nat
    requires |times| == |decisions|
    decreases |times|
  {
    if times == [] then 0
    else
      (if decisions[0] && start <= times[0] < start + 60_000 then 1 else 0) +
      Admitted(times[1..], decisions[1..], start)
  }

  /** What a stored counter can look like under a fixed limit. */
  predicate Sane(c: Option<Counter>, limit: int) {
    c.Some? ==> 1 <= c.value.value <= limit
  }

  lemma {:induction false} RunSplit(c: Option<Counter>, limit: int, first: seq<int>, second: seq<int>, inclusive: bool)
    ensures Decisions(c, limit, first + second, inclusive) ==
            Decisions(c, limit, first, inclusive) +
            Decisions(After(c, limit, first, inclusive), limit, second, inclusive)
    decreases |first|
  {
    if first == [] {
      assert first + second == second;
    } else {
      assert (first + second)[1..] == first[1..] + second;
      RunSplit(Check(c, limit, first[0], inclusive).0, limit, first[1..], second, inclusive);
    }
  }

  /** While a counter stays alive it admits exactly what is left up to the limit. */
  lemma {:induction false} LiveWindow(c: Counter, limit: int, times: seq<int>, inclusive: bool)
    requires c.value <= limit
    requires forall i :: 0 <= i < |times| ==> Live(Some(c), times[i], inclusive)
    ensures forall i :: 0 <= i < |times| ==> (Decisions(Some(c), limit, times, inclusive)[i] <==> i < limit - c.value)
    decreases |times|
  {
    if times != [] {
      var c' := if c.value < limit then c.(value := c.value + 1) else c;
      LiveWindow(c', limit, times[1..], inclusive);
    }
  }

  /** A window, opened by its first request, admits exactly its first limit arrivals. */
  lemma WindowAdmitsLimit(c: Option<Counter>, limit: int, times: seq<int>, inclusive: bool)
    requires limit > 0 && times != [] && !Live(c, times[0], inclusive)
    requires forall i :: 0 <= i < |times| ==> Live(Some(Counter(1, times[0] + WINDOW)), times[i], inclusive)
    ensures forall i :: 0 <= i < |times| ==> (Decisions(c, limit, times, inclusive)[i] <==> i < limit)
  {
    LiveWindow(Counter(1, times[0] + WINDOW), limit, times[1..], inclusive);
  }

  /** The same inside any run: from a request that finds no live counter, over the sixty seconds it covers. */
  lemma EveryWindowAdmitsLimit(limit: int, times: seq<int>, i: nat, j: nat, inclusive: bool)
    requires limit > 0 && i < j <= |times|
    requires !Live(After(None, limit, times[..i], inclusive), times[i], inclusive)
    requires forall k :: i <= k < j ==> WithinMinute(times[i], times[k], inclusive)
    ensures forall k :: i <= k < j ==> (Decisions(None, limit, times, inclusive)[k] <==> k - i < limit)
  {
    var c := After(None, limit, times[..i], inclusive);
    RunSplit(None, limit, times[..i], times[i..], inclusive);
    assert times == times[..i] + times[i..];
    RunSplit(c, limit, times[i..j], times[j..], inclusive);
    assert times[i..] == times[i..j] + times[j..];
    WindowAdmitsLimit(c, limit, times[i..j], inclusive);
    var d, w := Decisions(None, limit, times, inclusive), Decisions(c, limit, times[i..j], inclusive);
    forall k | i <= k < j ensures d[k] <==> k - i < limit {
      assert d[k] == w[k - i];
    }
  }

  /** Whether a request comes within sixty seconds of another; at sixty exactly it is left open. */
  predicate WithinMinute(start: int, time: int, inclusive: bool) {
    time < start + 60_000 || (inclusive && time == start + 60_000)
  }

  /** A counter expires sixty seconds after one of the requests. */
  lemma {:induction false} ExpiresAfterOne(c: Option<Counter>, limit: int, times: seq<int>, inclusive: bool)
    ensures var after := After(c, limit, times, inclusive);
      after == c || (after.Some? && c.Some? && after.value.expires == c.value.expires) ||
      (after.Some? && exists i :: 0 <= i < |times| && after.value.expires == times[i] + 60_000)
    decreases |times|
  {
    if times != [] {
      var next, rest := Check(c, limit, times[0], inclusive).0, times[1..];
      ExpiresAfterOne(next, limit, rest, inclusive);
      var after := After(c, limit, times, inclusive);
      if i :| 0 <= i < |rest| && after.Some? && after.value.expires == rest[i] + 60_000 {
        assert times[i + 1] == rest[i];
      }
    }
  }

  /**
    Told from the times alone: after a silence of more than sixty seconds, of the requests that come within
    sixty seconds of the next one exactly the first limit are admitted.
   */
  lemma AfterSilence(limit: int, times: seq<int>, i: nat, j: nat, inclusive: bool)
    requires limit > 0 && i < j <= |times|
    requires forall h :: 0 <= h < i ==> times[h] + 60_000 < times[i]
    requires forall k :: i <= k < j ==> WithinMinute(times[i], times[k], inclusive)
    ensures forall k :: i <= k < j ==> (Decisions(None, limit, times, inclusive)[k] <==> k - i < limit)
  {
    ExpiresAfterOne(None, limit, times[..i], inclusive);
    EveryWindowAdmitsLimit(limit, times, i, j, inclusive);
  }

  // ----- The rate bound -----

  lemma {:induction false} NothingAfterInterval(times: seq<int>, decisions: seq<bool>, start: int)
    requires |times| == |decisions| && forall i :: 0 <= i < |times| ==> times[i] >= start + WINDOW
    ensures Admitted(times, decisions, start) == 0
    decreases |times|
  {
    if times != [] {
      NothingAfterInterval(times[1..], decisions[1..], start);
    }
  }

  /** A counter that outlives the interval admits at most what is left of the limit in it. */
  lemma {:induction false} CoveredInterval(c: Counter, limit: int, times: seq<int>, start: int, inclusive: bool)
    requires c.value <= limit && c.expires >= start + WINDOW && NonDecreasing(times)
    requires times != [] ==> times[0] >= start
    ensures Admitted(times, Decisions(Some(c), limit, times, inclusive), start) <= limit - c.value
    decreases |times|
  {
    if times != [] {
      if times[0] >= start + WINDOW {
        NothingAfterInterval(times, Decisions(Some(c), limit, times, inclusive), start);
      } else {
        CoveredInterval(if c.value < limit then c.(value := c.value + 1) else c, limit, times[1..], start, inclusive);
      }
    }
  }

  /** From the start of the interval on: what the window found there still admits, and one full window more. */
  lemma {:induction false} FromStart(c: Option<Counter>, limit: int, times: seq<int>, start: int, inclusive: bool)
    requires limit > 0 && Sane(c, limit) && NonDecreasing(times)
    requires times != [] ==> times[0] >= start
    ensures Admitted(times, Decisions(c, limit, times, inclusive), start) <=
            limit + (if times != [] && Live(c, times[0], inclusive) then limit - c.value.value else 0)
    decreases |times|
  {
    if times != [] {
      if times[0] >= start + WINDOW {
        NothingAfterInterval(times, Decisions(c, limit, times, inclusive), start);
      } else {
        var c' := Check(c, limit, times[0], inclusive).0;
        if Live(c, times[0], inclusive) {
          FromStart(c', limit, times[1..], start, inclusive);
        } else {
          CoveredInterval(c'.value, limit, times[1..], start, inclusive);
        }
      }
    }
  }

  lemma {:induction false} BoundFrom(c: Option<Counter>, limit: int, times: seq<int>, start: int, inclusive: bool)
    requires limit > 0 && Sane(c, limit) && NonDecreasing(times)
    ensures Admitted(times, Decisions(c, limit, times, inclusive), start) <= 2 * limit - 1
    decreases |times|
  {
    if times == [] {
    } else if times[0] >= start {
      FromStart(c, limit, times, start, inclusive);
    } else {
      BoundFrom(Check(c, limit, times[0], inclusive).0, limit, times[1..], start, inclusive);
    }
  }

  /** Over any run, no half-open interval of one window length admits more than 2 * limit - 1 requests. */
  lemma RateBound(limit: int, times: seq<int>, start: int, inclusive: bool)
    requires limit > 0 && NonDecreasing(times)
    ensures Admitted(times, Decisions(None, limit, times, inclusive), start) <= 2 * limit - 1
  {
    BoundFrom(None, limit, times, start, inclusive);
  }

  function Repeat(t: int, n: nat): (s: seq<int>)
    ensures |s| == n
  {
    seq(n, _ => t)
  }

  lemma {:induction false} AdmittedConcat(t1: seq<int>, d1: seq<bool>, t2: seq<int>, d2: seq<bool>, start: int)
    requires |t1| == |d1| && |t2| == |d2|
    ensures Admitted(t1 + t2, d1 + d2, start) == Admitted(t1, d1, start) + Admitted(t2, d2, start)
    decreases |t1|
  {
    if t1 == [] {
      assert t1 + t2 == t2 && d1 + d2 == d2;
    } else {
      assert (t1 + t2)[1..] == t1[1..] + t2 && (d1 + d2)[1..] == d1[1..] + d2;
      AdmittedConcat(t1[1..], d1[1..], t2, d2, start);
    }
  }

  lemma {:induction false} AllAdmitted(times: seq<int>, decisions: seq<bool>, start: int)
    requires |times| == |decisions|
    requires forall i :: 0 <= i < |times| ==> decisions[i] && start <= times[i] < start + WINDOW
    ensures Admitted(times, decisions, start) == |times|
    decreases |times|
  {
    if times != [] {
      AllAdmitted(times[1..], decisions[1..], start);
    }
  }

  /**
    The bound is reached: one early request opens a window, the rest of its limit comes at its end, and a
    full window follows.
   */
  lemma RateBoundIsTight(limit: int, inclusive: bool)
    requires limit > 0
    ensures exists times, start ::
      NonDecreasing(times) && Admitted(times, Decisions(None, limit, times, inclusive), start) == 2 * limit - 1
  {
    var late, next := Repeat(WINDOW - 1, limit - 1), Repeat(WINDOW + 1, limit);
    var early, start := [0] + late, WINDOW - 1;
    var times := early + next;
    WindowAdmitsLimit(None, limit, early, inclusive);
    var c := After(None, limit, early, inclusive);
    LastWindow(None, limit, early, inclusive);
    WindowAdmitsLimit(c, limit, next, inclusive);
    RunSplit(None, limit, early, next, inclusive);
    var d1, d2 := Decisions(None, limit, early, inclusive), Decisions(c, limit, next, inclusive);
    AdmittedConcat(early, d1, next, d2, start);
    assert early[1..] == late;
    AllAdmitted(late, d1[1..], start);
    AllAdmitted(next, d2, start);
    assert NonDecreasing(times);
  }

  /** After requests that all fall into the window the first one opened, the counter is that window's. */
  lemma LastWindow(c: Option<Counter>, limit: int, times: seq<int>, inclusive: bool)
    requires limit > 0 && times != [] && !Live(c, times[0], inclusive)
    requires forall i :: 0 <= i < |times| ==> Live(Some(Counter(1, times[0] + WINDOW)), times[i], inclusive)
    ensures After(c, limit, times, inclusive).Some?
    ensures After(c, limit, times, inclusive).value.expires == times[0] + WINDOW
  {
    SameWindow(Counter(1, times[0] + WINDOW), limit, times[1..], inclusive);
  }

  lemma {:induction false} SameWindow(c: Counter, limit: int, times: seq<int>, inclusive: bool)
    requires forall i :: 0 <= i < |times| ==> Live(Some(c), times[i], inclusive)
    ensures After(Some(c), limit, times, inclusive).Some?
    ensures After(Some(c), limit, times, inclusive).value.expires == c.expires
    decreases |times|
  {
    if times != [] {
      SameWindow(if c.value < limit then c.(value := c.value + 1) else c, limit, times[1..], inclusive);
    }
  }

  // ----- Many endpoints on one store -----

  datatype Request = Request(key: Key, time: int)

  type Limits = Key -> int

  function Lookup(store: map<Key, Counter>, key: Key): Option<Counter> {
    if key in store then Some(store[key]) else None
  }

  function CheckIn(store: map<Key, Counter>, limits: Limits, r: Request, inclusive: bool): (map<Key, Counter>, bool) {
    var (c, ok) := Check(Lookup(store, r.key), limits(r.key), r.time, inclusive);
    (if c.Some? then store[r.key := c.value] else store, ok)
  }

  function DecisionsIn(store: map<Key, Counter>, limits: Limits, requests: seq<Request>, inclusive: bool)
    : (d: seq<bool>)
    ensures |d| == |requests|
    decreases |requests|
  {
    if requests == [] then []
    else
      var r := CheckIn(store, limits, requests[0], inclusive);
      [r.1] + DecisionsIn(r.0, limits, requests[1..], inclusive)
  }

  /** The times of one endpoint's requests. */
  function TimesOf(requests: seq<Request>, key: Key): seq<int> {
    if requests == [] then []
    else (if requests[0].key == key then [requests[0].time] else []) + TimesOf(requests[1..], key)
  }

  /** The decisions on one endpoint's requests. */
  function DecisionsOf(requests: seq<Request>, decisions: seq<bool>, key: Key): seq<bool>
    requires |requests| == |decisions|
  {
    if requests == [] then []
    else (if requests[0].key == key then [decisions[0]] else []) + DecisionsOf(requests[1..], decisions[1..], key)
  }

  /** Endpoints do not disturb each other: in any mixed run each one is decided as if it were alone. */
  lemma {:induction false} EndpointsIndependent(store: map<Key, Counter>, limits: Limits, requests: seq<Request>,
                                                  key: Key, inclusive: bool)
    ensures DecisionsOf(requests, DecisionsIn(store, limits, requests, inclusive), key) ==
            Decisions(Lookup(store, key), limits(key), TimesOf(requests, key), inclusive)
    decreases |requests|
  {
    if requests != [] {
      var next := CheckIn(store, limits, requests[0], inclusive).0;
      EndpointsIndependent(next, limits, requests[1..], key, inclusive);
      var d := DecisionsIn(store, limits, requests, inclusive);
      assert d[1..] == DecisionsIn(next, limits, requests[1..], inclusive);
      if requests[0].key == key {
        assert TimesOf(requests, key)[1..] == TimesOf(requests[1..], key);
        assert TimesOf(requests, key)[0] == requests[0].time;
        assert Lookup(next, key) == Check(Lookup(store, key), limits(key), requests[0].time, inclusive).0;
      } else {
        assert Lookup(next, key) == Lookup(store, key);
        assert TimesOf(requests, key) == TimesOf(requests[1..], key);
      }
    }
  }

  lemma {:induction false} TimesOfOrdered(requests: seq<Request>, key: Key)
    requires forall i, j :: 0 <= i < j < |requests| ==> requests[i].time <= requests[j].time
    ensures NonDecreasing(TimesOf(requests, key))
    ensures forall t :: t in TimesOf(requests, key) ==> exists i :: 0 <= i < |requests| && requests[i].time == t
    decreases |requests|
  {
    if requests != [] {
      var rest := requests[1..];
      TimesOfOrdered(rest, key);
      forall t | t in TimesOf(rest, key)
        ensures requests[0].time <= t && exists i :: 0 <= i < |requests| && requests[i].time == t
      {
        var i :| 0 <= i < |rest| && rest[i].time == t;
        assert requests[i + 1].time == t;
      }
      var all := TimesOf(requests, key);
      forall i, j | 0 <= i < j < |all| ensures all[i] <= all[j] {
        var skip := |all| - |TimesOf(rest, key)|;
        assert all[j] == TimesOf(rest, key)[j - skip] && all[j] in TimesOf(rest, key);
        assert i >= skip ==> all[i] == TimesOf(rest, key)[i - skip];
      }
    }
  }

  /** The rate bound for each endpoint of any mixed run on a fresh store. */
  lemma EndpointRateBound(limits: Limits, requests: seq<Request>, key: Key, start: int, inclusive: bool)
    requires limits(key) > 0
    requires forall i, j :: 0 <= i < j < |requests| ==> requests[i].time <= requests[j].time
    ensures var times := TimesOf(requests, key);
      var decisions := DecisionsOf(requests, DecisionsIn(map[], limits, requests, inclusive), key);
      |times| == |decisions| && Admitted(times, decisions, start) <= 2 * limits(key) - 1
  {
    EndpointsIndependent(map[], limits, requests, key, inclusive);
    TimesOfOrdered(requests, key);
    RateBound(limits(key), TimesOf(requests, key), start, inclusive);
  }

  // ----- The limiter as it runs -----

  datatype RateError = StoreFailed | Exceeded

  class Store {
    const inclusive: bool
    var counters: map<Key, Counter>

    constructor (inclusive: bool)
      ensures counters == map[] && this.inclusive == inclusive
    {
      this.inclusive, counters := inclusive, map[];
    }

    /** checkRateLimit; available says whether the store answers. */
    method CheckRateLimit(key: Key, limit: int, now: int, available: bool) returns (r: Result<(), RateError>)
      modifies this`counters
      ensures !available ==> r == Err(StoreFailed) && counters == old(counters)
      ensures available ==>
        var step := CheckIn(old(counters), _ => limit, Request(key, now), inclusive);
        counters == step.0 && r == if step.1 then Ok(()) else Err(Exceeded)
      ensures available ==>
        var live := key in old(counters) &&
          (now < old(counters)[key].expires || (inclusive && now == old(counters)[key].expires));
        var count := if live then old(counters)[key].value else 0;
        && (r.Ok? <==> count < limit)
        && (r.Err? ==> counters == old(counters))
        && (r.Ok? ==> key in counters && counters[key].value == count + 1 && counters - {key} == old(counters) - {key})
        && (r.Ok? ==> counters[key].expires == if live then old(counters)[key].expires else now + 60_000)
    {
      if !available {
        return Err(StoreFailed);
      }
      var current := if key in counters && Live(Some(counters[key]), now, inclusive) then counters[key].value else 0;
      if current >= limit {
        assert key in counters ==> counters == counters[key := counters[key]];
        return Err(Exceeded);
      }
      if key in counters && Live(Some(counters[key]), now, inclusive) {
        counters := counters[key := counters[key].(value := current + 1)];
      } else {
        counters := counters[key := Counter(1, now + WINDOW)];
      }
      return Ok(());
    }

    /** The call site in Enforce: without a policy, a positive limit and a store, nothing is limited. */
    method EnforceRateLimit(key: Key, policyLimit: Option<int>, configured: bool, now: int, available: bool)
      returns (passed: bool)
      modifies this`counters
      ensures !(policyLimit.Some? && policyLimit.value > 0 && configured) ==> passed && counters == old(counters)
      ensures policyLimit.Some? && policyLimit.value > 0 && configured && !available ==>
        !passed && counters == old(counters)
      ensures policyLimit.Some? && policyLimit.value > 0 && configured && available ==>
        (counters, passed) == CheckIn(old(counters), _ => policyLimit.value, Request(key, now), inclusive)
    {
      passed := true;
      if policyLimit.Some? && policyLimit.value > 0 && configured {
        var r := CheckRateLimit(key, policyLimit.value, now, available);
        passed := r.Ok?;
      }
    }
  }
}
