/** The goroutine that keeps extending a message's acknowledgement deadline, and the channel handshake that
    stops it, as a timed state machine. Durations and times are in nanoseconds. */
module LeaseExtender {
  import opened Options

  const SECOND: int := 1_000_000_000
  const DEFAULT_GRACE_PERIOD: int := 60 * SECOND
  const GCP_MIN_ACK_DEADLINE: int := 10 * SECOND
  const GCP_MAX_ACK_DEADLINE: int := 600 * SECOND

  /** What starting does: it refuses a negative tick interval, and a zero one makes the ticker panic. */
  datatype StartOutcome = Refused | Panics | Ticking(interval: int)

  function Start(deadline: int, grace: int): StartOutcome {
    if deadline - grace < 0 then Refused
    else if deadline - grace == 0 then Panics
    else Ticking(deadline - grace)
  }

  /** The lease that an extension asks the service for: clamped, then cut to whole seconds. */
  function Granted(deadline: int): int {
    var clamped :=
      if deadline < GCP_MIN_ACK_DEADLINE then GCP_MIN_ACK_DEADLINE
      else if deadline > GCP_MAX_ACK_DEADLINE then GCP_MAX_ACK_DEADLINE
      else deadline;
    clamped / SECOND * SECOND
  }

  // ---------------------------------------------------------------- the state machine

  datatype Goroutine =
    | Selecting                      // waiting for done or a tick
    | Calling(tick: int, since: int) // extending on behalf of a tick
    | Handing                        // sending the last error on exited
    | Exited

  datatype Caller = Working | SendingDone | AwaitingExit | Returned(error: Option<nat>)

  datatype Extension = Extension(at: int, error: Option<nat>)

  /** `buffered` is a tick that no receiver has taken yet; stopping the ticker discards it. */
  datatype State = State(
    now: int, ticking: bool, nextTick: int, buffered: Option<int>,
    goroutine: Goroutine, error: Option<nat>, caller: Caller,
    leaseEnd: int, extensions: seq<Extension>)

  /** The tick interval, the lease each extension grants, and a strict bound on how long after a tick its
      extension has returned. */
  datatype Timing = Timing(interval: int, lease: int, delay: int)

  datatype Action =
    | Advance(to: int)
    | Tick
    | PickTick
    | Return(at: int, error: Option<nat>)
    | CallStop
    | TakeDone
    | HandError

  function Init(c: Timing, now: int, leaseEnd: int): State {
    State(now, true, now + c.interval, None, Selecting, None, Working, leaseEnd, [])
  }

  predicate Alive(s: State) {
    s.goroutine.Selecting? || s.goroutine.Calling?
  }

  predicate Enabled(c: Timing, s: State, a: Action) {
    match a
    case Advance(to) =>
      && s.now < to
      && (s.ticking ==> to <= s.nextTick)
      && (Alive(s) && s.buffered.Some? ==> to < s.buffered.value + c.delay)
      && (s.goroutine.Calling? ==> to < s.goroutine.tick + c.delay)
    case Tick => s.ticking && s.now == s.nextTick
    case PickTick => s.goroutine.Selecting? && s.buffered.Some?
    case Return(at, error) => s.goroutine.Calling? && s.goroutine.since <= at <= s.now
    case CallStop => s.caller.Working?
    case TakeDone => s.goroutine.Selecting? && s.caller.SendingDone?
    case HandError => s.goroutine.Handing? && s.caller.AwaitingExit?
  }

  function Next(c: Timing, s: State, a: Action): State
    requires Enabled(c, s, a)
  {
    match a
    case Advance(to) => s.(now := to)
    case Tick =>
      s.(nextTick := s.nextTick + c.interval, buffered := if s.buffered.Some? then s.buffered else Some(s.now))
    case PickTick => s.(buffered := None, goroutine := Calling(s.buffered.value, s.now))
    case Return(at, error) =>
      var s := s.(goroutine := Selecting, error := error, extensions := s.extensions + [Extension(at, error)]);
      if error.Some? then s.(ticking := false, buffered := None) else s.(leaseEnd := at + c.lease)
    case CallStop => s.(caller := SendingDone)
    case TakeDone => s.(ticking := false, buffered := None, goroutine := Handing, caller := AwaitingExit)
    case HandError => s.(goroutine := Exited, caller := Returned(s.error))
  }

  ghost predicate Valid(c: Timing, s: State, actions: seq<Action>)
    decreases |actions|
  {
    actions == [] || (Enabled(c, s, actions[0]) && Valid(c, Next(c, s, actions[0]), actions[1..]))
  }

  ghost function Run(c: Timing, s: State, actions: seq<Action>): State
    requires Valid(c, s, actions)
    decreases |actions|
  {
    if actions == [] then s else Run(c, Next(c, s, actions[0]), actions[1..])
  }

  // ---------------------------------------------------------------- the lease

  /** The lease outlives every tick that is still to be served, by the service bound. */
  ghost predicate LeaseInv(c: Timing, s: State) {
    Alive(s) ==>
      && s.ticking && s.now <= s.nextTick <= s.now + c.interval
      && (s.buffered.Some? ==> s.buffered.value <= s.now < s.buffered.value + c.delay)
      && match s.goroutine
         case Calling(tick, since) =>
           && tick <= since <= s.now < tick + c.delay && tick + c.delay <= s.leaseEnd
           && (if s.buffered.Some? then s.buffered.value else s.nextTick) <= since + c.interval
         case _ => (if s.buffered.Some? then s.buffered.value else s.nextTick) + c.delay <= s.leaseEnd
  }

  predicate Succeeds(a: Action) {
    a.Return? ==> a.error.None?
  }

  lemma StepKeepsLease(c: Timing, s: State, a: Action)
    requires c.interval > 0 && c.delay > 0 && c.interval + c.delay <= c.lease
    requires LeaseInv(c, s) && Enabled(c, s, a) && Succeeds(a)
    ensures LeaseInv(c, Next(c, s, a))
  {}

  lemma {:induction false} RunKeepsLease(c: Timing, s: State, actions: seq<Action>)
    requires c.interval > 0 && c.delay > 0 && c.interval + c.delay <= c.lease
    requires LeaseInv(c, s) && Valid(c, s, actions) && forall i :: 0 <= i < |actions| ==> Succeeds(actions[i])
    ensures LeaseInv(c, Run(c, s, actions))
    decreases |actions|
  {
    if actions != [] {
      assert Succeeds(actions[0]);
      StepKeepsLease(c, s, actions[0]);
      RunKeepsLease(c, Next(c, s, actions[0]), actions[1..]);
    }
  }

  /** In no run whose extensions all succeed does the lease run out before the goroutine takes the stop. */
  ghost predicate NeverExpires(c: Timing, now: int, leaseEnd: int) {
    forall actions :: (Valid(c, Init(c, now, leaseEnd), actions)
                       && forall i :: 0 <= i < |actions| ==> Succeeds(actions[i])) ==>
      var s := Run(c, Init(c, now, leaseEnd), actions);
      Alive(s) ==> s.now < s.leaseEnd
  }

  lemma {:induction false} RunAppend(c: Timing, s: State, actions: seq<Action>, a: Action)
    requires Valid(c, s, actions) && Enabled(c, Run(c, s, actions), a)
    ensures Valid(c, s, actions + [a]) && Run(c, s, actions + [a]) == Next(c, Run(c, s, actions), a)
    decreases |actions|
  {
    if actions == [] {
      assert [a][1..] == [];
      assert actions + [a] == [a];
    } else {
      RunAppend(c, Next(c, s, actions[0]), actions[1..], a);
      assert (actions + [a])[1..] == actions[1..] + [a];
    }
  }

  /** When interval plus delay exceeds the lease: the first tick is served at once, the second too late. */
  lemma LateSecondTick(c: Timing, now: int, leaseEnd: int) returns (actions: seq<Action>)
    requires c.interval > 0 && c.delay > 0 && 0 < c.lease < c.interval + c.delay
    ensures Valid(c, Init(c, now, leaseEnd), actions) && forall i :: 0 <= i < |actions| ==> Succeeds(actions[i])
    ensures var s := Run(c, Init(c, now, leaseEnd), actions); Alive(s) && s.leaseEnd <= s.now
  {
    var s0 := Init(c, now, leaseEnd);
    var first := now + c.interval;
    actions := [];
    RunAppend(c, s0, actions, Advance(first));
    actions := actions + [Advance(first)];
    RunAppend(c, s0, actions, Tick);
    actions := actions + [Tick];
    RunAppend(c, s0, actions, PickTick);
    actions := actions + [PickTick];
    RunAppend(c, s0, actions, Return(first, None));
    actions := actions + [Return(first, None)];
    if c.lease > c.interval {
      RunAppend(c, s0, actions, Advance(first + c.interval));
      actions := actions + [Advance(first + c.interval)];
      RunAppend(c, s0, actions, Tick);
      actions := actions + [Tick];
    }
    // Further ticks find the second one still untaken and are dropped.
    while Run(c, s0, actions).nextTick < first + c.lease
      invariant Valid(c, s0, actions) && forall i :: 0 <= i < |actions| ==> Succeeds(actions[i])
      invariant
        var s := Run(c, s0, actions);
        && s.goroutine.Selecting? && s.ticking && s.leaseEnd == first + c.lease
        && s.now <= s.nextTick && s.now < first + c.lease
        && (if s.buffered.Some? then s.buffered.value == first + c.interval else s.nextTick >= first + c.lease)
      decreases first + c.lease - Run(c, s0, actions).nextTick
    {
      var s := Run(c, s0, actions);
      if s.now < s.nextTick {
        RunAppend(c, s0, actions, Advance(s.nextTick));
        actions := actions + [Advance(s.nextTick)];
      }
      RunAppend(c, s0, actions, Tick);
      actions := actions + [Tick];
    }
    RunAppend(c, s0, actions, Advance(first + c.lease));
    actions := actions + [Advance(first + c.lease)];
  }

  /** Lease safety, exactly: with a first lease that covers the first tick, the lease survives every run if
      and only if each lease covers one interval plus the service bound. */
  lemma LeaseSafety(c: Timing, now: int, leaseEnd: int)
    requires c.interval > 0 && c.delay > 0 && c.lease > 0 && now + c.interval + c.delay <= leaseEnd
    ensures NeverExpires(c, now, leaseEnd) <==> c.interval + c.delay <= c.lease
  {
    if c.interval + c.delay <= c.lease {
      forall actions | Valid(c, Init(c, now, leaseEnd), actions)
        && forall i :: 0 <= i < |actions| ==> Succeeds(actions[i])
        ensures var s := Run(c, Init(c, now, leaseEnd), actions); Alive(s) ==> s.now < s.leaseEnd
      {
        RunKeepsLease(c, Init(c, now, leaseEnd), actions);
      }
    } else {
      var actions := LateSecondTick(c, now, leaseEnd);
    }
  }

  /** The service grants the whole deadline only for whole seconds up to ten minutes. */
  lemma GrantedCovers(deadline: int)
    ensures deadline <= Granted(deadline) <==>
      deadline <= 10_000_000_000 || (deadline <= 600_000_000_000 && deadline % 1_000_000_000 == 0)
  {}

  /** The extender's own settings: a tick every deadline less the grace period, and every extension back within
      the grace period. */
  function Settings(deadline: int): Timing {
    Timing(deadline - DEFAULT_GRACE_PERIOD, Granted(deadline), DEFAULT_GRACE_PERIOD)
  }

  lemma TickingSafety(deadline: int, now: int)
    requires deadline > DEFAULT_GRACE_PERIOD
    ensures NeverExpires(Settings(deadline), now, now + deadline) <==>
      deadline <= 600_000_000_000 && deadline % 1_000_000_000 == 0
  {
    GrantedCovers(deadline);
    LeaseSafety(Settings(deadline), now, now + deadline);
  }

  /** For every deadline: the goroutine starts and keeps the lease of a message received at `now` in every run
      if and only if the deadline is more than the grace period, at most ten minutes and whole seconds. */
  lemma ExtenderSafety(deadline: int, now: int)
    ensures
      Start(deadline, DEFAULT_GRACE_PERIOD).Ticking? && NeverExpires(Settings(deadline), now, now + deadline) <==>
      60_000_000_000 < deadline <= 600_000_000_000 && deadline % 1_000_000_000 == 0
  {
    if deadline > DEFAULT_GRACE_PERIOD {
      TickingSafety(deadline, now);
    }
  }

  /** Starting panics for exactly one deadline, one minute, which the service allows and would grant in full. */
  lemma StartPanicsIff(deadline: int)
    ensures Start(deadline, DEFAULT_GRACE_PERIOD).Panics? <==> deadline == 60_000_000_000
    ensures Start(deadline, DEFAULT_GRACE_PERIOD).Refused? <==> deadline < 60_000_000_000
    ensures Granted(60_000_000_000) == 60_000_000_000
  {}

  /** When the lease ends by the extensions alone: one lease after the last that succeeded. */
  function EndOf(c: Timing, leaseEnd: int, extensions: seq<Extension>): int {
    if extensions == [] then leaseEnd else
      var last := extensions[|extensions| - 1];
      if last.error == None then last.at + c.lease else EndOf(c, leaseEnd, extensions[..|extensions| - 1])
  }

  /** In every run the lease ends one lease after the time at which the service took the last extension that
      succeeded, however late its answer is. */
  lemma {:induction false} LeaseEndsAfterLast(c: Timing, s: State, actions: seq<Action>, leaseEnd: int)
    requires Valid(c, s, actions) && s.leaseEnd == EndOf(c, leaseEnd, s.extensions)
    ensures Run(c, s, actions).leaseEnd == EndOf(c, leaseEnd, Run(c, s, actions).extensions)
    decreases |actions|
  {
    if actions != [] {
      var s' := Next(c, s, actions[0]);
      if actions[0].Return? {
        assert s'.extensions[..|s'.extensions| - 1] == s.extensions;
      }
      LeaseEndsAfterLast(c, s', actions[1..], leaseEnd);
    }
  }

  // ---------------------------------------------------------------- the handshake

  ghost predicate HandshakeInv(s: State) {
    && (s.goroutine.Handing? <==> s.caller.AwaitingExit?)
    && (s.goroutine.Exited? <==> s.caller.Returned?)
    && s.error == (if s.extensions == [] then None else s.extensions[|s.extensions| - 1].error)
    && (forall i :: 0 <= i < |s.extensions| - 1 ==> s.extensions[i].error.None?)
    && (s.error.Some? ==> !s.ticking && s.buffered.None? && !s.goroutine.Calling?)
    && (!Alive(s) ==> !s.ticking && s.buffered.None?)
    && (s.caller.Returned? ==> s.caller.error == s.error)
  }

  lemma StepKeepsHandshake(c: Timing, s: State, a: Action)
    requires HandshakeInv(s) && Enabled(c, s, a)
    ensures HandshakeInv(Next(c, s, a))
  {}

  lemma {:induction false} RunKeepsHandshake(c: Timing, s: State, actions: seq<Action>)
    requires HandshakeInv(s) && Valid(c, s, actions)
    ensures HandshakeInv(Run(c, s, actions))
    decreases |actions|
  {
    if actions != [] {
      StepKeepsHandshake(c, s, actions[0]);
      RunKeepsHandshake(c, Next(c, s, actions[0]), actions[1..]);
    }
  }

  /** Stop reports the result of the last extension. As nothing is extended after a failure, it reports
      success exactly when every extension succeeded. */
  lemma StopReportsLast(c: Timing, now: int, leaseEnd: int, actions: seq<Action>)
    requires Valid(c, Init(c, now, leaseEnd), actions) && Run(c, Init(c, now, leaseEnd), actions).caller.Returned?
    ensures
      var s := Run(c, Init(c, now, leaseEnd), actions);
      && s.caller.error == (if s.extensions == [] then None else s.extensions[|s.extensions| - 1].error)
      && (s.caller.error.None? <==> forall i :: 0 <= i < |s.extensions| ==> s.extensions[i].error.None?)
  {
    RunKeepsHandshake(c, Init(c, now, leaseEnd), actions);
  }

  /** Once Stop has returned, no further step extends the message. */
  lemma {:induction false} NothingAfterStop(c: Timing, s: State, actions: seq<Action>)
    requires HandshakeInv(s) && s.caller.Returned? && Valid(c, s, actions)
    ensures Run(c, s, actions).extensions == s.extensions && Run(c, s, actions).caller == s.caller
    decreases |actions|
  {
    if actions != [] {
      StepKeepsHandshake(c, s, actions[0]);
      NothingAfterStop(c, Next(c, s, actions[0]), actions[1..]);
    }
  }

  /** Stop cannot get stuck: from every reachable state in which it waits, at most three steps, none of them
      the passing of time and only the return of a call in progress from outside, let it return. */
  lemma StopCompletes(c: Timing, now: int, leaseEnd: int, actions: seq<Action>) returns (rest: seq<Action>)
    requires Valid(c, Init(c, now, leaseEnd), actions)
    requires var s := Run(c, Init(c, now, leaseEnd), actions); s.caller.SendingDone? || s.caller.AwaitingExit?
    ensures |rest| <= 3 && forall i :: 0 <= i < |rest| ==> rest[i].Return? || rest[i].TakeDone? || rest[i].HandError?
    ensures Valid(c, Run(c, Init(c, now, leaseEnd), actions), rest)
    ensures Run(c, Run(c, Init(c, now, leaseEnd), actions), rest).caller.Returned?
  {
    var s := Run(c, Init(c, now, leaseEnd), actions);
    RunKeepsHandshake(c, Init(c, now, leaseEnd), actions);
    CallsBeganBefore(c, Init(c, now, leaseEnd), actions);
    rest := [];
    if s.goroutine.Calling? {
      RunAppend(c, s, rest, Return(s.now, None));
      rest := rest + [Return(s.now, None)];
    }
    if s.caller.SendingDone? {
      RunAppend(c, s, rest, TakeDone);
      rest := rest + [TakeDone];
    }
    RunAppend(c, s, rest, HandError);
    rest := rest + [HandError];
  }

  lemma {:induction false} CallsBeganBefore(c: Timing, s: State, actions: seq<Action>)
    requires Valid(c, s, actions) && (s.goroutine.Calling? ==> s.goroutine.since <= s.now)
    ensures var s' := Run(c, s, actions); s'.goroutine.Calling? ==> s'.goroutine.since <= s'.now
    decreases |actions|
  {
    if actions != [] {
      CallsBeganBefore(c, Next(c, s, actions[0]), actions[1..]);
    }
  }
}
