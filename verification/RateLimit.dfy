/** The fixed-window limiter of the admin API: admin-rate-limit.store.ts and
    admin-rate-limit.guard.ts in app/order-service/src/modules/admin-security. */
module RateLimit {
  import opened Common

  type Time = int

  datatype Bucket = Bucket(windowStartedAt: Time, requests: nat)
  datatype Request = Request(key: string, now: Time)
  datatype Limits = Limits(windowMs: nat, maxRequests: nat)

  type Buckets = map<string, Bucket>

  function NextBucket(b: Option<Bucket>, windowMs: nat, now: Time): Bucket {
    if b.None? || now - b.value.windowStartedAt >= windowMs then Bucket(now, 1)
    else b.value.(requests := b.value.requests + 1)
  }

  function Lookup(bs: Buckets, key: string): Option<Bucket> {
    if key in bs then Some(bs[key]) else None
  }

  class InMemoryAdminRateLimitStore {
    var buckets: Buckets

    constructor ()
      ensures buckets == map[]
    {
      buckets := map[];
    }

    method Increment(key: string, windowMs: nat, now: Time) returns (requests: nat)
      modifies this
      ensures var b := NextBucket(Lookup(old(buckets), key), windowMs, now);
        buckets == old(buckets)[key := b] && requests == b.requests
    {
      if key !in buckets || now - buckets[key].windowStartedAt >= windowMs {
        buckets := buckets[key := Bucket(now, 1)];
        return 1;
      }
      var bucket := buckets[key];
      buckets := buckets[key := bucket.(requests := bucket.requests + 1)];
      requests := bucket.requests + 1;
    }
  }

  // ------------------------------------------------------------------- traces

  /** The shared store after these requests, from any guard and in any order of keys. */
  function After(l: Limits, trace: seq<Request>): Buckets {
    if trace == [] then map[]
    else
      var bs, r := After(l, trace[..|trace| - 1]), trace[|trace| - 1];
      bs[r.key := NextBucket(Lookup(bs, r.key), l.windowMs, r.now)]
  }

  /** What the last request of the trace is told. */
  predicate LastAdmitted(l: Limits, trace: seq<Request>)
    requires trace != []
  {
    var r := trace[|trace| - 1];
    After(l, trace)[r.key].requests <= l.maxRequests
  }

  predicate Matches(r: Request, key: string, from: Time, to: Time) {
    r.key == key && from <= r.now < to
  }

  /** Requests with this key in [from, to). */
  function Requests(trace: seq<Request>, key: string, from: Time, to: Time): nat {
    if trace == [] then 0
    else Requests(trace[..|trace| - 1], key, from, to) + if Matches(trace[|trace| - 1], key, from, to) then 1 else 0
  }

  /** Those of them that were admitted. */
  function Admitted(l: Limits, trace: seq<Request>, key: string, from: Time, to: Time): nat {
    if trace == [] then 0
    else
      Admitted(l, trace[..|trace| - 1], key, from, to)
      + if Matches(trace[|trace| - 1], key, from, to) && LastAdmitted(l, trace) then 1 else 0
  }

  /** The clock does not go back. */
  ghost predicate Monotone(trace: seq<Request>) {
    forall i, j :: 0 <= i < j < |trace| ==> trace[i].now <= trace[j].now
  }

  /** Request `i` opens a window of its key. */
  predicate Opens(l: Limits, trace: seq<Request>, i: nat)
    requires i < |trace|
  {
    After(l, trace[..i + 1])[trace[i].key].requests == 1
  }

  function Min(a: nat, b: nat): nat { if a < b then a else b }

  lemma {:induction false} Splits(l: Limits, trace: seq<Request>, key: string, from: Time, mid: Time, to: Time)
    requires from <= mid <= to
    ensures Admitted(l, trace, key, from, to) == Admitted(l, trace, key, from, mid) + Admitted(l, trace, key, mid, to)
  {
    if trace != [] {
      Splits(l, trace[..|trace| - 1], key, from, mid, to);
    }
  }

  // --------------------------------------------------------------- the current window

  /** The window before, without the request that opened it, admits less than the limit. */
  ghost predicate QuietBefore(l: Limits, trace: seq<Request>, key: string, start: Time) {
    forall t :: start - l.windowMs < t <= start ==> Admitted(l, trace, key, t, start) < l.maxRequests
  }

  /** What the bucket of a key says about the trace. */
  ghost predicate Current(l: Limits, trace: seq<Request>, key: string, b: Bucket) {
    var start, end := b.windowStartedAt, b.windowStartedAt + l.windowMs;
    && b.requests >= 1
    && (forall i :: 0 <= i < |trace| && trace[i].key == key ==> trace[i].now < end)
    && Requests(trace, key, start, end) == b.requests
    && Admitted(l, trace, key, start, end) == Min(b.requests, l.maxRequests)
    && Admitted(l, trace, key, start, start + 1) >= 1
    && QuietBefore(l, trace, key, start)
  }

  ghost predicate Inv(l: Limits, trace: seq<Request>, key: string) {
    if key in After(l, trace) then Current(l, trace, key, After(l, trace)[key])
    else forall i :: 0 <= i < |trace| ==> trace[i].key != key
  }

  lemma {:induction false} NoOtherKey(l: Limits, trace: seq<Request>, key: string, from: Time, to: Time)
    requires forall i :: 0 <= i < |trace| ==> trace[i].key != key
    ensures Admitted(l, trace, key, from, to) == 0 && Requests(trace, key, from, to) == 0
  {
    if trace != [] {
      NoOtherKey(l, trace[..|trace| - 1], key, from, to);
    }
  }

  /** No request of the key in [from, to). */
  lemma {:induction false} Nothing(l: Limits, trace: seq<Request>, key: string, from: Time, to: Time)
    requires forall i :: 0 <= i < |trace| && trace[i].key == key ==> !(from <= trace[i].now < to)
    ensures Admitted(l, trace, key, from, to) == 0 && Requests(trace, key, from, to) == 0
  {
    if trace != [] {
      Nothing(l, trace[..|trace| - 1], key, from, to);
    }
  }

  ghost predicate Usable(l: Limits) {
    l.windowMs >= 1 && l.maxRequests >= 1
  }

  lemma SameWindow(l: Limits, init: seq<Request>, r: Request)
    requires Usable(l) && Monotone(init + [r]) && Inv(l, init, r.key)
    requires r.key in After(l, init) && r.now - After(l, init)[r.key].windowStartedAt < l.windowMs
    requires After(l, init)[r.key].windowStartedAt <= r.now
    ensures Inv(l, init + [r], r.key)
  {
    var trace, b := init + [r], After(l, init)[r.key];
    var start, end := b.windowStartedAt, b.windowStartedAt + l.windowMs;
    assert trace[..|trace| - 1] == init;
    assert After(l, trace)[r.key] == b.(requests := b.requests + 1);
    forall t | start - l.windowMs < t <= start ensures Admitted(l, trace, r.key, t, start) < l.maxRequests {
      assert Admitted(l, trace, r.key, t, start) == Admitted(l, init, r.key, t, start);
    }
  }

  /** Nothing of the key at or after `now` yet. */
  ghost predicate Before(init: seq<Request>, key: string, now: Time) {
    forall i :: 0 <= i < |init| && init[i].key == key ==> init[i].now < now
  }

  lemma OpensAlone(l: Limits, init: seq<Request>, r: Request, to: Time)
    requires Usable(l) && Before(init, r.key, r.now) && r.now < to
    requires Lookup(After(l, init + [r]), r.key) == Some(Bucket(r.now, 1))
    ensures Requests(init + [r], r.key, r.now, to) == 1 && Admitted(l, init + [r], r.key, r.now, to) == 1
  {
    assert (init + [r])[..|init|] == init;
    Nothing(l, init, r.key, r.now, to);
  }

  lemma EarlierUnchanged(l: Limits, init: seq<Request>, r: Request, from: Time, to: Time)
    requires to <= r.now
    ensures Admitted(l, init + [r], r.key, from, to) == Admitted(l, init, r.key, from, to)
  {
    assert (init + [r])[..|init|] == init;
  }

  lemma NothingSince(l: Limits, init: seq<Request>, r: Request)
    requires Inv(l, init, r.key)
    requires r.key !in After(l, init) || r.now - After(l, init)[r.key].windowStartedAt >= l.windowMs
    ensures Before(init, r.key, r.now)
  {
  }

  lemma WindowBefore(l: Limits, init: seq<Request>, r: Request, t: Time)
    requires Usable(l) && Inv(l, init, r.key) && r.now - l.windowMs < t <= r.now
    requires r.key !in After(l, init) || r.now - After(l, init)[r.key].windowStartedAt >= l.windowMs
    ensures Admitted(l, init + [r], r.key, t, r.now) < l.maxRequests
  {
    EarlierUnchanged(l, init, r, t, r.now);
    TailOfWindow(l, init, r.key, t, r.now);
  }

  lemma StartedBucket(l: Limits, init: seq<Request>, r: Request)
    requires r.key !in After(l, init) || r.now - After(l, init)[r.key].windowStartedAt >= l.windowMs
    ensures Lookup(After(l, init + [r]), r.key) == Some(Bucket(r.now, 1))
  {
    assert (init + [r])[..|init|] == init;
  }

  lemma NewCurrent(l: Limits, init: seq<Request>, r: Request)
    requires Usable(l) && Before(init, r.key, r.now) && QuietBefore(l, init + [r], r.key, r.now)
    requires Lookup(After(l, init + [r]), r.key) == Some(Bucket(r.now, 1))
    ensures Current(l, init + [r], r.key, Bucket(r.now, 1))
  {
    OpensAlone(l, init, r, r.now + l.windowMs);
    OpensAlone(l, init, r, r.now + 1);
  }

  lemma NewWindow(l: Limits, init: seq<Request>, r: Request)
    requires Usable(l) && Inv(l, init, r.key)
    requires r.key !in After(l, init) || r.now - After(l, init)[r.key].windowStartedAt >= l.windowMs
    ensures Inv(l, init + [r], r.key)
  {
    StartedBucket(l, init, r);
    NothingSince(l, init, r);
    forall t | r.now - l.windowMs < t <= r.now ensures Admitted(l, init + [r], r.key, t, r.now) < l.maxRequests {
      WindowBefore(l, init, r, t);
    }
    NewCurrent(l, init, r);
  }

  /** After the first instant of the current window less than the limit is admitted. */
  lemma TailOfWindow(l: Limits, trace: seq<Request>, key: string, t: Time, to: Time)
    requires Usable(l) && Inv(l, trace, key) && t <= to
    requires key in After(l, trace) ==> After(l, trace)[key].windowStartedAt < t
    ensures Admitted(l, trace, key, t, to) < l.maxRequests
  {
    if key !in After(l, trace) {
      NoOtherKey(l, trace, key, t, to);
    } else {
      var start := After(l, trace)[key].windowStartedAt;
      var end := start + l.windowMs;
      var last := if to < end then end else to;
      Splits(l, trace, key, start, start + 1, last);
      Splits(l, trace, key, start + 1, t, last);
      Splits(l, trace, key, t, to, last);
      Splits(l, trace, key, start, end, last);
      Nothing(l, trace, key, end, last);
    }
  }

  lemma OtherKey(l: Limits, init: seq<Request>, r: Request, key: string)
    requires Inv(l, init, key) && r.key != key
    ensures Inv(l, init + [r], key)
  {
    var trace := init + [r];
    assert trace[..|trace| - 1] == init;
    assert forall from, to :: Admitted(l, trace, key, from, to) == Admitted(l, init, key, from, to);
    assert forall from, to :: Requests(trace, key, from, to) == Requests(init, key, from, to);
  }

  lemma {:induction false} StartIsPast(l: Limits, trace: seq<Request>, key: string)
    requires key in After(l, trace)
    ensures exists i :: 0 <= i < |trace| && trace[i].key == key && trace[i].now == After(l, trace)[key].windowStartedAt
  {
    var init, r := trace[..|trace| - 1], trace[|trace| - 1];
    if r.key != key || (key in After(l, init) && r.now - After(l, init)[key].windowStartedAt < l.windowMs) {
      StartIsPast(l, init, key);
      var i :| 0 <= i < |init| && init[i].key == key && init[i].now == After(l, init)[key].windowStartedAt;
      assert trace[i] == init[i];
    } else {
      assert trace[|trace| - 1] == r;
    }
  }

  lemma {:induction false} InvHolds(l: Limits, trace: seq<Request>, key: string)
    requires Usable(l) && Monotone(trace)
    ensures Inv(l, trace, key)
  {
    if trace != [] {
      var init, r := trace[..|trace| - 1], trace[|trace| - 1];
      assert trace == init + [r];
      InvHolds(l, init, key);
      if r.key != key {
        OtherKey(l, init, r, key);
      } else if key in After(l, init) && r.now - After(l, init)[key].windowStartedAt < l.windowMs {
        StartIsPast(l, init, key);
        SameWindow(l, init, r);
      } else {
        NewWindow(l, init, r);
      }
    }
  }

  // ------------------------------------------------------------------- the theorems

  /** However other keys interleave, every window of a key admits exactly the smaller of its
      requests and the limit. */
  lemma {:induction false} EveryWindowAdmitsTheLimit(l: Limits, trace: seq<Request>, i: nat)
    requires Usable(l) && Monotone(trace) && i < |trace| && Opens(l, trace, i)
    ensures var start := trace[i].now;
      var end := start + l.windowMs;
      Admitted(l, trace, trace[i].key, start, end) == Min(Requests(trace, trace[i].key, start, end), l.maxRequests)
  {
    var key, start := trace[i].key, trace[i].now;
    var init, r := trace[..|trace| - 1], trace[|trace| - 1];
    var b := After(l, trace)[r.key];
    assert trace == init + [r];
    if i == |init| {
      assert trace[..i + 1] == trace;
      InvHolds(l, init, key);
      InvHolds(l, trace, key);
      StartOfNew(l, init, r);
    } else {
      assert trace[..i + 1] == init[..i + 1];
      EveryWindowAdmitsTheLimit(l, init, i);
      if Matches(r, key, start, start + l.windowMs) {
        StillCurrent(l, init, i, r.now);
        InvHolds(l, trace, key);
      }
    }
  }

  lemma StartOfNew(l: Limits, init: seq<Request>, r: Request)
    requires Usable(l) && Inv(l, init, r.key)
    requires After(l, init + [r])[r.key].requests == 1
    ensures After(l, init + [r])[r.key].windowStartedAt == r.now
  {
    assert (init + [r])[..|init|] == init;
  }

  /** A window stays the current one until its end. */
  lemma {:induction false} StillCurrent(l: Limits, trace: seq<Request>, i: nat, now: Time)
    requires Usable(l) && Monotone(trace) && i < |trace| && Opens(l, trace, i)
    requires now < trace[i].now + l.windowMs && forall j :: 0 <= j < |trace| ==> trace[j].now <= now
    ensures trace[i].key in After(l, trace) && After(l, trace)[trace[i].key].windowStartedAt == trace[i].now
  {
    var init, r := trace[..|trace| - 1], trace[|trace| - 1];
    assert trace == init + [r];
    if i == |init| {
      assert trace[..i + 1] == trace;
      InvHolds(l, init, r.key);
      StartOfNew(l, init, r);
    } else {
      assert trace[..i + 1] == init[..i + 1];
      StillCurrent(l, init, i, now);
    }
  }

  /** What an interval as long as a window can admit: one that overlaps two windows takes in all
      but the first request of one and all of the next; a window of one millisecond is itself the
      interval. */
  function Most(l: Limits): int {
    if l.windowMs == 1 then l.maxRequests else 2 * l.maxRequests - 1
  }

  /** No interval as long as a window admits more. */
  lemma {:induction false} EveryIntervalBounded(l: Limits, trace: seq<Request>, key: string, t: Time)
    requires Usable(l) && Monotone(trace)
    ensures Admitted(l, trace, key, t, t + l.windowMs) <= Most(l)
  {
    if trace != [] {
      var init, r := trace[..|trace| - 1], trace[|trace| - 1];
      EveryIntervalBounded(l, init, key, t);
      if Matches(r, key, t, t + l.windowMs) {
        InvHolds(l, trace, key);
        LastInterval(l, trace, t);
      }
    }
  }

  lemma LastInterval(l: Limits, trace: seq<Request>, t: Time)
    requires Usable(l) && trace != [] && Monotone(trace) && Inv(l, trace, trace[|trace| - 1].key)
    requires t <= trace[|trace| - 1].now < t + l.windowMs
    ensures Admitted(l, trace, trace[|trace| - 1].key, t, t + l.windowMs) <= Most(l)
  {
    var r, to := trace[|trace| - 1], t + l.windowMs;
    var start := After(l, trace)[r.key].windowStartedAt;
    var end := start + l.windowMs;
    StartIsPast(l, trace, r.key);
    assert start <= r.now;
    var last := if to < end then end else to;
    Splits(l, trace, r.key, start, end, last);
    Nothing(l, trace, r.key, end, last);
    Splits(l, trace, r.key, start, to, last);
    if t <= start {
      Splits(l, trace, r.key, t, start, to);
    } else {
      Splits(l, trace, r.key, start, t, to);
    }
  }

  /** `n` requests at one instant. */
  function AtOnce(key: string, now: Time, n: nat): seq<Request> {
    if n == 0 then [] else AtOnce(key, now, n - 1) + [Request(key, now)]
  }

  ghost predicate NoLaterThan(trace: seq<Request>, now: Time) {
    Monotone(trace) && forall i :: 0 <= i < |trace| ==> trace[i].now <= now
  }

  lemma OneMore(trace: seq<Request>, r: Request, now: Time)
    requires NoLaterThan(trace, now) && now <= r.now
    ensures NoLaterThan(trace + [r], r.now)
  {
  }

  lemma OneMoreAtOnce(init: seq<Request>, key: string, now: Time, n: nat) returns (fewer: seq<Request>)
    requires n > 0
    ensures fewer == init + AtOnce(key, now, n - 1)
    ensures init + AtOnce(key, now, n) == fewer + [Request(key, now)]
  {
    fewer := init + AtOnce(key, now, n - 1);
    assert init + (AtOnce(key, now, n - 1) + [Request(key, now)]) == fewer + [Request(key, now)];
  }

  lemma {:induction false} BurstInTime(init: seq<Request>, key: string, now: Time, n: nat)
    requires NoLaterThan(init, now)
    ensures NoLaterThan(init + AtOnce(key, now, n), now)
  {
    if n == 0 {
      assert init + AtOnce(key, now, n) == init;
    } else {
      var fewer := OneMoreAtOnce(init, key, now, n);
      BurstInTime(init, key, now, n - 1);
      OneMore(fewer, Request(key, now), now);
    }
  }

  /** The bucket of the key and the requests admitted in [from, to). */
  ghost predicate Counts(l: Limits, trace: seq<Request>, key: string, b: Bucket, from: Time, to: Time, admitted: nat) {
    Lookup(After(l, trace), key) == Some(b) && Admitted(l, trace, key, from, to) == admitted
  }

  lemma OneMoreCounts(l: Limits, trace: seq<Request>, r: Request, b: Bucket, from: Time, to: Time, admitted: nat)
    requires Counts(l, trace, r.key, b, from, to, admitted) && from <= r.now < to
    ensures var next := NextBucket(Some(b), l.windowMs, r.now);
      next.requests <= l.maxRequests ==> Counts(l, trace + [r], r.key, next, from, to, admitted + 1)
  {
    AddRequest(l, trace, r, from, to);
  }

  lemma {:induction false} BurstAdmitted(l: Limits, init: seq<Request>, key: string, now: Time, n: nat, b: Bucket,
                                         from: Time, to: Time, admitted: nat)
    requires Counts(l, init, key, b, from, to, admitted) && from <= now < to
    requires now - b.windowStartedAt < l.windowMs && b.requests + n <= l.maxRequests
    ensures Counts(l, init + AtOnce(key, now, n), key, b.(requests := b.requests + n), from, to, admitted + n)
  {
    if n == 0 {
      assert init + AtOnce(key, now, n) == init;
    } else {
      var fewer := OneMoreAtOnce(init, key, now, n);
      BurstAdmitted(l, init, key, now, n - 1, b, from, to, admitted);
      OneMoreCounts(l, fewer, Request(key, now), b.(requests := b.requests + n - 1), from, to, admitted + n - 1);
    }
  }

  /** One request opens a window and the rest of the limit comes at its last instant. */
  function FirstBurst(l: Limits, key: string): seq<Request>
    requires Usable(l)
  {
    [Request(key, 0)] + AtOnce(key, l.windowMs - 1, l.maxRequests - 1)
  }

  /** Right after it the limit of the next window, unless the first one was a single instant. */
  function Bursts(l: Limits, key: string): seq<Request>
    requires Usable(l)
  {
    if l.windowMs == 1 then FirstBurst(l, key)
    else FirstBurst(l, key) + [Request(key, l.windowMs)] + AtOnce(key, l.windowMs, l.maxRequests - 1)
  }

  /** The bound is the best one for every window and limit: requests around the end of one window
      and the start of the next reach it. */
  lemma BoundIsReached(l: Limits, key: string)
    requires Usable(l)
    ensures var trace, from := Bursts(l, key), l.windowMs - 1;
      Monotone(trace) && Admitted(l, trace, key, from, from + l.windowMs) == Most(l)
  {
    FirstWindow(l, key);
    if l.windowMs > 1 {
      NextWindowToo(l, key);
    }
  }

  lemma FirstWindow(l: Limits, key: string)
    requires Usable(l)
    ensures var admitted := if l.windowMs == 1 then l.maxRequests else l.maxRequests - 1;
      Counts(l, FirstBurst(l, key), key, Bucket(0, l.maxRequests), l.windowMs - 1, 2 * l.windowMs - 1, admitted)
    ensures NoLaterThan(FirstBurst(l, key), l.windowMs - 1)
  {
    var from, to, n := l.windowMs - 1, 2 * l.windowMs - 1, l.maxRequests - 1;
    var admitted := if l.windowMs == 1 then 1 else 0;
    FirstCounts(l, key, from, to);
    BurstAdmitted(l, [Request(key, 0)], key, l.windowMs - 1, n, Bucket(0, 1), from, to, admitted);
    BurstInTime([Request(key, 0)], key, l.windowMs - 1, n);
  }

  lemma NextWindowToo(l: Limits, key: string)
    requires Usable(l) && l.windowMs > 1 && NoLaterThan(FirstBurst(l, key), l.windowMs - 1)
    requires Counts(l, FirstBurst(l, key), key, Bucket(0, l.maxRequests), l.windowMs - 1, 2 * l.windowMs - 1,
                    l.maxRequests - 1)
    ensures var trace := Bursts(l, key);
      Monotone(trace) && Admitted(l, trace, key, l.windowMs - 1, 2 * l.windowMs - 1) == 2 * l.maxRequests - 1
  {
    var from, to, n := l.windowMs - 1, 2 * l.windowMs - 1, l.maxRequests - 1;
    var first, r := FirstBurst(l, key), Request(key, l.windowMs);
    OneMoreCounts(l, first, r, Bucket(0, l.maxRequests), from, to, n);
    OneMore(first, r, l.windowMs - 1);
    BurstAdmitted(l, first + [r], key, l.windowMs, n, Bucket(l.windowMs, 1), from, to, l.maxRequests);
    BurstInTime(first + [r], key, l.windowMs, n);
  }

  lemma FirstCounts(l: Limits, key: string, from: Time, to: Time)
    requires Usable(l) && 0 <= from < to
    ensures Counts(l, [Request(key, 0)], key, Bucket(0, 1), from, to, if from == 0 then 1 else 0)
  {
    AddRequest(l, [], Request(key, 0), from, to);
    assert [] + [Request(key, 0)] == [Request(key, 0)];
  }

  lemma AddRequest(l: Limits, init: seq<Request>, r: Request, from: Time, to: Time)
    ensures var bs, trace := After(l, init), init + [r];
      && Lookup(After(l, trace), r.key) == Some(NextBucket(Lookup(bs, r.key), l.windowMs, r.now))
      && Admitted(l, trace, r.key, from, to) ==
         Admitted(l, init, r.key, from, to)
         + if from <= r.now < to && After(l, trace)[r.key].requests <= l.maxRequests then 1 else 0
  {
    assert (init + [r])[..|init|] == init;
  }

  // ----------------------------------------------------------------------- the guard

  datatype Outcome = Allowed | Unauthorized | TooManyRequests

  /** One replica; replicas with a common store share its windows. */
  class AdminRateLimitGuard {
    const limits: Limits
    const store: InMemoryAdminRateLimitStore

    constructor (limits: Limits, store: InMemoryAdminRateLimitStore)
      ensures this.limits == limits && this.store == store
    {
      this.limits, this.store := limits, store;
    }

    /** `available`: the store answers; if it does not, the request is refused. */
    method CanActivate(fingerprint: Option<string>, now: Time, available: bool, ghost trace: seq<Request>)
      returns (outcome: Outcome, ghost later: seq<Request>)
      requires store.buckets == After(limits, trace)
      modifies store
      ensures store.buckets == After(limits, later)
      ensures fingerprint.None? ==> outcome == Unauthorized && later == trace
      ensures fingerprint.Some? && !available ==> outcome == TooManyRequests && later == trace
      ensures fingerprint.Some? && available ==>
                && later == trace + [Request("admin:" + fingerprint.value, now)]
                && outcome == if LastAdmitted(limits, later) then Allowed else TooManyRequests
    {
      later := trace;
      if fingerprint.None? {
        return Unauthorized, later;
      }
      if !available {
        return TooManyRequests, later;
      }
      var key := "admin:" + fingerprint.value;
      var requests := store.Increment(key, limits.windowMs, now);
      later := trace + [Request(key, now)];
      assert later[..|trace|] == trace;
      outcome := if requests > limits.maxRequests then TooManyRequests else Allowed;
    }
  }
}
