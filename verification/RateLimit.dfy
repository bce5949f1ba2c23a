/** The hourly request limit of an API key: a counter in a cache whose expiry every accepted request renews. */
module RateLimit {
  /** How long the cache keeps a counter, in seconds. */
  const WINDOW: real := 3600.0

  /** A cached counter and the time at which the cache drops it. */
  datatype Entry = Entry(count: int, expiry: real)

  type Cache = map<string, Entry>

  /** What the cache returns for the key at `now`, 0 when it holds nothing or the entry has expired. */
  function Count(cache: Cache, key: string, now: real): int {
    if key in cache && now < cache[key].expiry then cache[key].count else 0
  }

  class RateLimiter {
    var cache: Cache

    constructor ()
      ensures cache == map[]
    {
      cache := map[];
    }

    method CheckRateLimit(key: string, limit: int, now: real) returns (exceeded: bool)
      modifies this
      ensures exceeded <==> !Admits(old(cache), Request(key, now), limit)
      ensures cache == Admitted(old(cache), Request(key, now), limit)
    {
      var currentCount := if key in cache && now < cache[key].expiry then cache[key].count else 0;
      if currentCount >= limit {
        return true;
      }
      cache := cache[key := Entry(currentCount + 1, now + WINDOW)];
      return false;
    }
  }

  datatype Request = Request(key: string, at: real)

  predicate Admits(cache: Cache, r: Request, limit: int) {
    Count(cache, r.key, r.at) < limit
  }

  function Admitted(cache: Cache, r: Request, limit: int): Cache {
    if Admits(cache, r, limit) then cache[r.key := Entry(Count(cache, r.key, r.at) + 1, r.at + WINDOW)] else cache
  }

  // ---------------------------------------------------------------- traces

  /** Requests of any keys in the order they are checked, each key with its own fixed limit. */
  type Limits = string -> int

  function CacheAfter(trace: seq<Request>, limits: Limits): Cache {
    if trace == [] then map[] else
      var last := trace[|trace| - 1];
      Admitted(CacheAfter(trace[..|trace| - 1], limits), last, limits(last.key))
  }

  predicate Accepted(trace: seq<Request>, limits: Limits, i: nat)
    requires i < |trace|
  {
    Admits(CacheAfter(trace[..i], limits), trace[i], limits(trace[i].key))
  }

  ghost predicate InOrder(trace: seq<Request>) {
    forall i, j :: 0 <= i < j < |trace| ==> trace[i].at <= trace[j].at
  }

  /** The accepted requests of a key from time `from` on. */
  function Since(trace: seq<Request>, limits: Limits, key: string, from: real): set<nat> {
    set i | 0 <= i < |trace| && trace[i].key == key && trace[i].at >= from && Accepted(trace, limits, i)
  }

  /** The accepted requests of a key in the half-open hour that starts at `from`. */
  function InWindow(trace: seq<Request>, limits: Limits, key: string, from: real): set<nat> {
    set i | 0 <= i < |trace| && trace[i].key == key && from <= trace[i].at < from + 3600.0 && Accepted(trace, limits, i)
  }

  lemma AcceptedPrefix(trace: seq<Request>, limits: Limits, n: nat, i: nat)
    requires i < n <= |trace|
    ensures Accepted(trace[..n], limits, i) <==> Accepted(trace, limits, i)
  {
    assert trace[..n][..i] == trace[..i];
  }

  /** What the cache knows about one key: its entry counts at least the accepted requests of the hour
      before the last accepted one, and never more than the limit. */
  ghost predicate Tracks(trace: seq<Request>, limits: Limits, key: string, from: real) {
    var cache := CacheAfter(trace, limits);
    && (key !in cache ==> Since(trace, limits, key, from) == {})
    && (key in cache ==>
          && 1 <= cache[key].count <= limits(key)
          && trace != [] && cache[key].expiry - WINDOW <= trace[|trace| - 1].at
          && (forall i :: i in Since(trace, limits, key, from) ==> trace[i].at <= cache[key].expiry - WINDOW)
          && (from > cache[key].expiry - 2.0 * WINDOW ==> |Since(trace, limits, key, from)| <= cache[key].count))
  }

  lemma SinceStep(trace: seq<Request>, limits: Limits, key: string, from: real)
    requires trace != []
    ensures
      var (n, init) := (|trace| - 1, trace[..|trace| - 1]);
      && n !in Since(init, limits, key, from)
      && Since(trace, limits, key, from) ==
          Since(init, limits, key, from) +
          (if trace[n].key == key && trace[n].at >= from && Accepted(trace, limits, n) then {n} else {})
  {
    var (n, init) := (|trace| - 1, trace[..|trace| - 1]);
    forall i | 0 <= i < n ensures Accepted(init, limits, i) <==> Accepted(trace, limits, i) {
      AcceptedPrefix(trace, limits, n, i);
    }
  }

  /** When the counter has been dropped, no accepted request is left in the hour before. */
  lemma DroppedMeansNone(trace: seq<Request>, limits: Limits, key: string, from: real, now: real)
    requires Tracks(trace, limits, key, from) && from > now - WINDOW
    requires key in CacheAfter(trace, limits) ==> now >= CacheAfter(trace, limits)[key].expiry
    ensures Since(trace, limits, key, from) == {}
  {
    var cache := CacheAfter(trace, limits);
    assert key in cache ==> cache[key].expiry - WINDOW < from;
  }

  lemma LastBefore(trace: seq<Request>, limits: Limits, key: string, from: real)
    requires trace != [] && InOrder(trace) && Tracks(trace[..|trace| - 1], limits, key, from)
    ensures
      var cache := CacheAfter(trace[..|trace| - 1], limits);
      key in cache ==> cache[key].expiry - WINDOW <= trace[|trace| - 1].at
  {
    var (n, init) := (|trace| - 1, trace[..|trace| - 1]);
    assert init != [] ==> init[n - 1] == trace[n - 1];
  }

  lemma TracksAccepted(trace: seq<Request>, limits: Limits, key: string, from: real)
    requires trace != [] && InOrder(trace) && trace[|trace| - 1].key == key && Accepted(trace, limits, |trace| - 1)
    requires Tracks(trace[..|trace| - 1], limits, key, from)
    ensures Tracks(trace, limits, key, from)
  {
    var (n, init) := (|trace| - 1, trace[..|trace| - 1]);
    var cache := CacheAfter(init, limits);
    SinceStep(trace, limits, key, from);
    LastBefore(trace, limits, key, from);
    if from > trace[n].at - WINDOW && (key in cache ==> trace[n].at >= cache[key].expiry) {
      DroppedMeansNone(init, limits, key, from, trace[n].at);
    }
  }

  lemma TracksOther(trace: seq<Request>, limits: Limits, key: string, from: real)
    requires trace != [] && InOrder(trace) && !(trace[|trace| - 1].key == key && Accepted(trace, limits, |trace| - 1))
    requires Tracks(trace[..|trace| - 1], limits, key, from)
    ensures Tracks(trace, limits, key, from)
  {
    var (n, init) := (|trace| - 1, trace[..|trace| - 1]);
    SinceStep(trace, limits, key, from);
    assert Since(trace, limits, key, from) == Since(init, limits, key, from);
    LastBefore(trace, limits, key, from);
  }

  lemma {:induction false} CacheTracks(trace: seq<Request>, limits: Limits, key: string, from: real)
    requires InOrder(trace)
    ensures Tracks(trace, limits, key, from)
    decreases |trace|
  {
    if trace != [] {
      CacheTracks(trace[..|trace| - 1], limits, key, from);
      if trace[|trace| - 1].key == key && Accepted(trace, limits, |trace| - 1) {
        TracksAccepted(trace, limits, key, from);
      } else {
        TracksOther(trace, limits, key, from);
      }
    }
  }

  /** In every half-open hour, at most `limit` requests of a key are accepted, whatever other keys do. */
  lemma {:induction false} HourlyLimit(trace: seq<Request>, limits: Limits, key: string, from: real)
    requires InOrder(trace)
    ensures |InWindow(trace, limits, key, from)| <= if limits(key) > 0 then limits(key) else 0
  {
    if trace == [] {
      assert InWindow(trace, limits, key, from) == {};
    } else {
      var (n, init) := (|trace| - 1, trace[..|trace| - 1]);
      forall i | 0 <= i < n ensures Accepted(init, limits, i) <==> Accepted(trace, limits, i) {
        AcceptedPrefix(trace, limits, n, i);
      }
      if n in InWindow(trace, limits, key, from) {
        CacheTracks(trace, limits, key, from);
        assert InWindow(trace, limits, key, from) == Since(trace, limits, key, from);
      } else {
        HourlyLimit(init, limits, key, from);
        assert InWindow(trace, limits, key, from) == InWindow(init, limits, key, from);
      }
    }
  }

  // ---------------------------------------------------------------- exactly which requests are accepted

  /** The times at which requests of a key were accepted. */
  function AcceptedTimes(trace: seq<Request>, limits: Limits, key: string): seq<real> {
    if trace == [] then [] else
      var n := |trace| - 1;
      AcceptedTimes(trace[..n], limits, key) +
      (if trace[n].key == key && Accepted(trace, limits, n) then [trace[n].at] else [])
  }

  /** How many accepted requests lead up to `now` without a pause of an hour or more. */
  function Burst(times: seq<real>, now: real): nat {
    if times == [] || now >= times[|times| - 1] + 3600.0 then 0
    else 1 + Burst(times[..|times| - 1], times[|times| - 1])
  }

  lemma {:induction false} CountIsBurst(trace: seq<Request>, limits: Limits, key: string, now: real)
    ensures Count(CacheAfter(trace, limits), key, now) == Burst(AcceptedTimes(trace, limits, key), now)
    decreases |trace|
  {
    if trace != [] {
      var (n, init) := (|trace| - 1, trace[..|trace| - 1]);
      CountIsBurst(init, limits, key, now);
      assert trace[..n] == init;
      if trace[n].key == key && Accepted(trace, limits, n) {
        CountIsBurst(init, limits, key, trace[n].at);
        var times := AcceptedTimes(trace, limits, key);
        assert times[..|times| - 1] == AcceptedTimes(init, limits, key);
      } else {
        assert AcceptedTimes(trace, limits, key) == AcceptedTimes(init, limits, key);
      }
    }
  }

  /** A request is accepted exactly when the unbroken burst of accepted requests before it is shorter than
      the limit. The limit is not one per hour: a burst has no maximal duration. */
  lemma AcceptedIff(trace: seq<Request>, limits: Limits, i: nat)
    requires i < |trace|
    ensures Accepted(trace, limits, i) <==>
      Burst(AcceptedTimes(trace[..i], limits, trace[i].key), trace[i].at) < limits(trace[i].key)
  {
    CountIsBurst(trace[..i], limits, trace[i].key, trace[i].at);
  }

  /** An hour without an accepted request reopens a positive limit. */
  lemma PauseReopens(trace: seq<Request>, limits: Limits, i: nat)
    requires i < |trace| && limits(trace[i].key) > 0
    requires
      var times := AcceptedTimes(trace[..i], limits, trace[i].key);
      times == [] || trace[i].at >= times[|times| - 1] + 3600.0
    ensures Accepted(trace, limits, i)
  {
    AcceptedIff(trace, limits, i);
  }

  /** The hour is exact: under a limit of one, the next request is refused at any time before second 3600 and
      accepted from then on. */
  lemma HourIsExact(at: real)
    requires at >= 0.0
    ensures
      var trace := [Request("k", 0.0), Request("k", at)];
      var limits := (key: string) => 1;
      Accepted(trace, limits, 0) && (Accepted(trace, limits, 1) <==> at >= 3600.0)
  {
    var trace := [Request("k", 0.0), Request("k", at)];
    assert trace[..0] == [];
    assert trace[..1] == [Request("k", 0.0)] && trace[..1][..0] == [];
  }

  /** Two requests an hour are allowed, one comes every 50 minutes, and the third is refused. */
  lemma SlowClientRefused()
    ensures
      var trace := [Request("k", 0.0), Request("k", 3000.0), Request("k", 6000.0)];
      var limits := (key: string) => 2;
      && Accepted(trace, limits, 0) && Accepted(trace, limits, 1) && !Accepted(trace, limits, 2)
      && InWindow(trace, limits, "k", 2400.0) == {1}
  {
    var trace := [Request("k", 0.0), Request("k", 3000.0), Request("k", 6000.0)];
    var limits := (key: string) => 2;
    assert trace[..0] == [];
    assert trace[..1] == [Request("k", 0.0)] && trace[..1][..0] == [];
    assert trace[..2] == [Request("k", 0.0), Request("k", 3000.0)] && trace[..2][..1] == trace[..1];
  }
}
