/** The request limit when checks overlap: reading the counter and writing it back are two operations. */
module RateLimitOverlap {
  import opened RateLimit

  /** A check that was accepted and has not written the counter yet, with the count it read. */
  datatype Pending = Pending(key: string, count: int)

  datatype State = State(cache: Cache, pending: map<nat, Pending>)

  const START := State(map[], map[])

  datatype Op = Read(check: nat, key: string, at: real) | Write(check: nat, key: string, at: real)

  predicate Enabled(s: State, op: Op) {
    match op
    case Read(check, _, _) => check !in s.pending
    case Write(check, key, _) => check in s.pending && s.pending[check].key == key
  }

  /** A read accepts or refuses; the write of an accepted check renews the counter's expiry. */
  function Next(limits: Limits, s: State, op: Op): State
    requires Enabled(s, op)
  {
    match op
    case Read(check, key, at) =>
      var count := Count(s.cache, key, at);
      if count < limits(key) then s.(pending := s.pending[check := Pending(key, count)]) else s
    case Write(check, key, at) =>
      State(s.cache[key := Entry(s.pending[check].count + 1, at + WINDOW)], s.pending - {check})
  }

  ghost predicate Execution(limits: Limits, states: seq<State>, ops: seq<Op>) {
    && |states| == |ops| + 1 && states[0] == START
    && (forall i :: 0 <= i < |ops| ==> Enabled(states[i], ops[i]) && states[i + 1] == Next(limits, states[i], ops[i]))
    && forall i, j :: 0 <= i < j < |ops| ==> ops[i].at <= ops[j].at
  }

  /** The write does not raise the counter: what another check wrote since the read is lost. */
  predicate LosesUpdate(s: State, op: Op) {
    op.Write? && Enabled(s, op) && Count(s.cache, op.key, op.at) > s.pending[op.check].count
  }

  /** The accepted requests of a key from time `from` on, among the first `k` operations, by their writes. */
  function Since(ops: seq<Op>, k: nat, key: string, from: real): set<nat>
    requires k <= |ops|
  {
    set i | 0 <= i < k && ops[i].Write? && ops[i].key == key && ops[i].at >= from
  }

  /** Those of them that lost an update. */
  function Losses(states: seq<State>, ops: seq<Op>, k: nat, key: string, from: real): set<nat>
    requires k <= |ops| < |states|
  {
    set i | 0 <= i < k && ops[i].Write? && ops[i].key == key && ops[i].at >= from && LosesUpdate(states[i], ops[i])
  }

  // ---------------------------------------------------------------- the invariant

  /** One limit for each of `n`. */
  function Allowance(limit: int, n: nat): (a: int)
    ensures limit >= 0 ==> a >= 0
  {
    if n == 0 then 0 else limit + Allowance(limit, n - 1)
  }

  ghost predicate PendingOk(limits: Limits, s: State) {
    forall c :: c in s.pending ==> 0 <= s.pending[c].count < limits(s.pending[c].key)
  }

  /** What the counter of a key knows: all but the lost updates of the hour before the last write. */
  ghost predicate Tracks(limits: Limits, states: seq<State>, ops: seq<Op>, k: nat, key: string, from: real)
    requires k <= |ops| < |states|
  {
    var (cache, since, losses) := (states[k].cache, Since(ops, k, key, from), Losses(states, ops, k, key, from));
    && (key !in cache ==> since == {})
    && (key in cache ==>
          && 1 <= cache[key].count <= limits(key)
          && (forall i :: i in since ==> ops[i].at <= cache[key].expiry - WINDOW)
          && (exists i :: 0 <= i < k && cache[key].expiry - WINDOW == ops[i].at)
          && (from > cache[key].expiry - 2.0 * WINDOW ==>
            |since| <= cache[key].count + Allowance(limits(key), |losses|)))
  }

  lemma {:induction false} PendingStaysOk(limits: Limits, states: seq<State>, ops: seq<Op>, k: nat)
    requires Execution(limits, states, ops) && k <= |ops|
    ensures PendingOk(limits, states[k])
    ensures forall key :: key in states[k].cache ==> states[k].cache[key].count >= 1
  {
    if k > 0 {
      PendingStaysOk(limits, states, ops, k - 1);
      assert states[k] == Next(limits, states[k - 1], ops[k - 1]);
    }
  }

  lemma SinceNext(states: seq<State>, ops: seq<Op>, k: nat, key: string, from: real)
    requires k < |ops| < |states|
    ensures
      var isNew := ops[k].Write? && ops[k].key == key && ops[k].at >= from;
      && k !in Since(ops, k, key, from) && k !in Losses(states, ops, k, key, from)
      && Since(ops, k + 1, key, from) == Since(ops, k, key, from) + (if isNew then {k} else {})
      && Losses(states, ops, k + 1, key, from)
        == Losses(states, ops, k, key, from) + (if isNew && LosesUpdate(states[k], ops[k]) then {k} else {})
  {}

  lemma {:induction false} AllowanceIsProduct(limit: nat, n: nat)
    ensures Allowance(limit, n) == limit * n
  {
    if n > 0 {
      AllowanceIsProduct(limit, n - 1);
      assert limit * n == limit * (n - 1) + limit;
    }
  }

  /** The counter has expired: no request of the hour before is left. */
  lemma ExpiredMeansNone(limits: Limits, states: seq<State>, ops: seq<Op>, k: nat, key: string, from: real, now: real)
    requires k <= |ops| < |states| && Tracks(limits, states, ops, k, key, from) && from > now - WINDOW
    requires key in states[k].cache ==> now >= states[k].cache[key].expiry
    ensures Since(ops, k, key, from) == {}
  {
    var cache := states[k].cache;
    assert key in cache ==> cache[key].expiry - WINDOW < from;
  }

  /** How a write moves the bound, for an unexpired count. */
  lemma BoundMoves(limit: int, since: nat, losses: nat, read: int, count: int)
    requires 0 <= read < limit && count <= limit && since <= count + Allowance(limit, losses)
    ensures since + 1 <= read + 1 + Allowance(limit, losses + (if count > read then 1 else 0))
  {}

  /** A write of the key, from `from` on and within an hour. */
  predicate WritesWithin(op: Op, key: string, from: real) {
    op.Write? && op.key == key && op.at >= from > op.at - WINDOW
  }

  lemma WriteAfterExpiry(limits: Limits, states: seq<State>, ops: seq<Op>, k: nat, key: string, from: real)
    requires k < |ops| < |states| && Tracks(limits, states, ops, k, key, from) && WritesWithin(ops[k], key, from)
    requires key in states[k].cache ==> ops[k].at >= states[k].cache[key].expiry
    ensures |Since(ops, k + 1, key, from)| == 1
  {
    SinceNext(states, ops, k, key, from);
    ExpiredMeansNone(limits, states, ops, k, key, from, ops[k].at);
  }

  lemma SizesNext(states: seq<State>, ops: seq<Op>, k: nat, key: string, from: real)
    requires k < |ops| < |states| && WritesWithin(ops[k], key, from)
    ensures |Since(ops, k + 1, key, from)| == |Since(ops, k, key, from)| + 1
    ensures |Losses(states, ops, k + 1, key, from)|
      == |Losses(states, ops, k, key, from)| + (if LosesUpdate(states[k], ops[k]) then 1 else 0)
  {
    SinceNext(states, ops, k, key, from);
  }

  lemma UnexpiredBound(limits: Limits, states: seq<State>, ops: seq<Op>, k: nat, key: string, from: real)
    requires k < |ops| < |states| && Tracks(limits, states, ops, k, key, from) && WritesWithin(ops[k], key, from)
    requires forall i :: 0 <= i < k ==> ops[i].at <= ops[k].at
    requires key in states[k].cache
    ensures states[k].cache[key].count <= limits(key)
    ensures |Since(ops, k, key, from)|
      <= states[k].cache[key].count + Allowance(limits(key), |Losses(states, ops, k, key, from)|)
  {
    var i :| 0 <= i < k && states[k].cache[key].expiry - WINDOW == ops[i].at;
    assert states[k].cache[key].expiry - 2.0 * WINDOW <= ops[k].at - WINDOW;
  }

  lemma WriteBeforeExpiry(limits: Limits, states: seq<State>, ops: seq<Op>, k: nat, key: string, from: real, read: int)
    requires k < |ops| < |states| && Tracks(limits, states, ops, k, key, from) && WritesWithin(ops[k], key, from)
    requires forall i :: 0 <= i < k ==> ops[i].at <= ops[k].at
    requires Enabled(states[k], ops[k]) && read == states[k].pending[ops[k].check].count && 0 <= read < limits(key)
    requires key in states[k].cache && ops[k].at < states[k].cache[key].expiry
    ensures |Since(ops, k + 1, key, from)| <= read + 1 + Allowance(limits(key), |Losses(states, ops, k + 1, key, from)|)
  {
    var count := states[k].cache[key].count;
    UnexpiredBound(limits, states, ops, k, key, from);
    SizesNext(states, ops, k, key, from);
    assert LosesUpdate(states[k], ops[k]) <==> count > read;
    BoundMoves(limits(key), |Since(ops, k, key, from)|, |Losses(states, ops, k, key, from)|, read, count);
  }

  /** How the number of accepted requests and the counter move together. */
  lemma WriteCounts(limits: Limits, states: seq<State>, ops: seq<Op>, k: nat, key: string, from: real)
    requires Execution(limits, states, ops) && k < |ops|
    requires Tracks(limits, states, ops, k, key, from) && WritesWithin(ops[k], key, from)
    ensures |Since(ops, k + 1, key, from)|
      <= states[k + 1].cache[key].count + Allowance(limits(key), |Losses(states, ops, k + 1, key, from)|)
  {
    PendingStaysOk(limits, states, ops, k);
    assert states[k + 1] == Next(limits, states[k], ops[k]);
    var read := states[k].pending[ops[k].check].count;
    if key in states[k].cache && ops[k].at < states[k].cache[key].expiry {
      WriteBeforeExpiry(limits, states, ops, k, key, from, read);
    } else {
      WriteAfterExpiry(limits, states, ops, k, key, from);
    }
  }

  lemma WriteTracks(limits: Limits, states: seq<State>, ops: seq<Op>, k: nat, key: string, from: real)
    requires Execution(limits, states, ops) && k < |ops| && Tracks(limits, states, ops, k, key, from)
    requires ops[k].Write? && ops[k].key == key
    ensures Tracks(limits, states, ops, k + 1, key, from)
  {
    PendingStaysOk(limits, states, ops, k);
    SinceNext(states, ops, k, key, from);
    assert states[k + 1] == Next(limits, states[k], ops[k]);
    assert states[k + 1].cache[key].expiry - WINDOW == ops[k].at;
    if from > ops[k].at - WINDOW {
      if ops[k].at >= from {
        WriteCounts(limits, states, ops, k, key, from);
      } else {
        NoneYet(ops, k, key, from);
      }
    }
  }

  lemma NoneYet(ops: seq<Op>, k: nat, key: string, from: real)
    requires k < |ops| && ops[k].at < from && forall i, j :: 0 <= i < j < |ops| ==> ops[i].at <= ops[j].at
    ensures Since(ops, k + 1, key, from) == {}
  {}

  lemma OtherTracks(limits: Limits, states: seq<State>, ops: seq<Op>, k: nat, key: string, from: real)
    requires Execution(limits, states, ops) && k < |ops| && Tracks(limits, states, ops, k, key, from)
    requires !(ops[k].Write? && ops[k].key == key)
    ensures Tracks(limits, states, ops, k + 1, key, from)
  {
    SinceNext(states, ops, k, key, from);
    assert states[k + 1] == Next(limits, states[k], ops[k]);
    var (c, c') := (states[k].cache, states[k + 1].cache);
    assert (key in c <==> key in c') && (key in c ==> c[key] == c'[key]);
  }

  lemma {:induction false} CounterTracks(limits: Limits, states: seq<State>, ops: seq<Op>, k: nat, key: string,
      from: real)
    requires Execution(limits, states, ops) && k <= |ops|
    ensures Tracks(limits, states, ops, k, key, from)
  {
    if k > 0 {
      CounterTracks(limits, states, ops, k - 1, key, from);
      if ops[k - 1].Write? && ops[k - 1].key == key {
        WriteTracks(limits, states, ops, k - 1, key, from);
      } else {
        OtherTracks(limits, states, ops, k - 1, key, from);
      }
    }
  }

  // ---------------------------------------------------------------- the bound

  function InWindow(ops: seq<Op>, k: nat, key: string, from: real): set<nat>
    requires k <= |ops|
  {
    set i | 0 <= i < k && ops[i].Write? && ops[i].key == key && from <= ops[i].at < from + 3600.0
  }

  function LossesInWindow(states: seq<State>, ops: seq<Op>, k: nat, key: string, from: real): set<nat>
    requires k <= |ops| < |states|
  {
    set i | i in InWindow(ops, k, key, from) && LosesUpdate(states[i], ops[i])
  }

  lemma LastWriteBounds(limits: Limits, states: seq<State>, ops: seq<Op>, k: nat, key: string, from: real)
    requires Execution(limits, states, ops) && 0 < k <= |ops| && k - 1 in InWindow(ops, k, key, from)
    ensures |InWindow(ops, k, key, from)|
      <= limits(key) + Allowance(limits(key), |LossesInWindow(states, ops, k, key, from)|)
  {
    CounterTracks(limits, states, ops, k, key, from);
    assert states[k] == Next(limits, states[k - 1], ops[k - 1]);
    assert InWindow(ops, k, key, from) == Since(ops, k, key, from);
    assert LossesInWindow(states, ops, k, key, from) == Losses(states, ops, k, key, from);
  }

  /** However checks overlap, every half-open hour has at most one limit of accepted requests of a key, and one
      more for each lost update in it. */
  lemma {:induction false} OverlappingLimit(
    limits: Limits, states: seq<State>, ops: seq<Op>, k: nat, key: string, from: real)
    requires Execution(limits, states, ops) && k <= |ops| && limits(key) >= 0
    ensures |InWindow(ops, k, key, from)| <= limits(key) * (|LossesInWindow(states, ops, k, key, from)| + 1)
  {
    if k == 0 {
      assert InWindow(ops, k, key, from) == {};
      AllowanceIsProduct(limits(key), |LossesInWindow(states, ops, k, key, from)| + 1);
    } else if k - 1 in InWindow(ops, k, key, from) {
      LastWriteBounds(limits, states, ops, k, key, from);
      AllowanceIsProduct(limits(key), |LossesInWindow(states, ops, k, key, from)| + 1);
    } else {
      OverlappingLimit(limits, states, ops, k - 1, key, from);
      assert InWindow(ops, k, key, from) == InWindow(ops, k - 1, key, from);
      assert LossesInWindow(states, ops, k, key, from) == LossesInWindow(states, ops, k - 1, key, from);
    }
  }

  const ONE: Limits := key => 1

  /** Overlapping checks do exceed the limit: two checks that both read before either writes are both accepted
      under a limit of one an hour. */
  lemma OverlapExceedsLimit()
    ensures exists states, ops :: Execution(ONE, states, ops) && |InWindow(ops, |ops|, "k", 0.0)| == 2
  {
    var ops := [Read(0, "k", 0.0), Read(1, "k", 0.0), Write(0, "k", 1.0), Write(1, "k", 1.0)];
    var s1 := Next(ONE, START, ops[0]);
    var s2 := Next(ONE, s1, ops[1]);
    var s3 := Next(ONE, s2, ops[2]);
    var s4 := Next(ONE, s3, ops[3]);
    assert Execution(ONE, [START, s1, s2, s3, s4], ops);
    assert InWindow(ops, 4, "k", 0.0) == {2, 3};
  }
}
