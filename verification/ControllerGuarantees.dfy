/** What holds over every run of the network mode controller: isolation by mode, and its counters. */
module ControllerGuarantees {
  import opened Options
  import opened NetworkRequest
  import opened DecisionEngine
  import opened NetworkController

  // ---------------------------------------------------------------- isolation

  datatype Call = Switch(mode: Mode) | AddRule(rule: Rule) | Request(req: Request, decision: Decision)

  function After(s: Setup, call: Call): Setup {
    if call.Switch? then Switched(s, call.mode).0 else s
  }

  /** `setups[i]` is the controller's setup before `calls[i]`. */
  ghost predicate Run(setups: seq<Setup>, calls: seq<Call>) {
    |setups| == |calls| + 1 && forall i :: 0 <= i < |calls| ==> setups[i + 1] == After(setups[i], calls[i])
  }

  /** Started from a configuration that validates. */
  ghost predicate Started(s: Setup) {
    s == NewSetup(s.mode, s.full, s.half, s.transparent) && ValidateSection(s.mode, s.full, s.half, s.transparent).None?
  }

  /** The controller and the router agree on a valid mode, and the mode has its components. */
  predicate Sound(s: Setup) {
    && s.mode == s.configMode && !s.mode.InvalidMode?
    && (s.mode.HalfMode? ==> s.engine)
    && (s.engine ==> s.half.Some? && s.modifier == Some(s.half.value.trafficModifier))
    && (s.mode.TransparentModeOn? ==> s.handler)
  }

  lemma {:induction false} AlwaysSound(setups: seq<Setup>, calls: seq<Call>, i: nat)
    requires Run(setups, calls) && i < |setups| && Started(setups[0])
    ensures Sound(setups[i])
    ensures (setups[i].full, setups[i].half, setups[i].transparent)
      == (setups[0].full, setups[0].half, setups[0].transparent)
  {
    if i > 0 {
      AlwaysSound(setups, calls, i - 1);
      assert setups[i] == After(setups[i - 1], calls[i - 1]);
    }
  }

  predicate HasServices(full: Option<FullConfig>) {
    full.Some? && full.value.services.Some?
  }

  /** Full mode never lets a request out: it answers with a simulation, or fails exactly when no services are
      configured. */
  lemma FullModeIsolates(setups: seq<Setup>, calls: seq<Call>, i: nat)
    requires Run(setups, calls) && i < |calls| && Started(setups[0])
    requires calls[i].Request? && setups[i].mode.FullMode?
    ensures
      var outcome := Handle(setups[i], calls[i].req, calls[i].decision).0;
      if HasServices(setups[0].full) then outcome.Answer? && outcome.source == "simulated" else outcome == Failed
  {
    AlwaysSound(setups, calls, i);
  }

  /** The request's destination is reached only by the controller's and the router's half mode, with a decision
      to forward, or one to modify whose modifier neither panics nor replaces the answer; and then always. This
      holds of every setup, also of one whose two copies of the mode differ. */
  lemma RealIff(s: Setup, req: Request, d: Decision)
    ensures Handle(s, req, d).0 == Answer("real", "") <==>
      s.mode.HalfMode? && s.configMode.HalfMode? && s.engine
      && (d.action.Forward? || (d.action.Modify? &&
          (d.modifier.Some? ==> !ModifyPanics(s, d.modifier.value, req) && !Sandboxes(s, d.modifier.value))))
  {
    assert |"real"| == 4 && |"simulated"| == 9 && |"blocked"| == 7 && |"sandboxed"| == 9
      && |"transparent_passthrough"| == 23;
  }

  /** Were the router to read another mode than the controller, full mode would still answer with a simulation
      unless what it reads is transparent mode; a failure needs the services to be missing as well. */
  lemma FullModeLeaksIff(s: Setup, req: Request, d: Decision)
    requires s.mode.FullMode?
    ensures
      var outcome := Handle(s, req, d).0;
      && (outcome.Answer? && outcome.source != "simulated" <==> s.configMode.TransparentModeOn?)
      && (outcome == Failed <==> !s.configMode.TransparentModeOn? && !HasServices(s.full))
  {
    assert |"simulated"| == 9 && |"transparent_passthrough"| == 23;
  }

  /** The fail-safe for a missing transparent handler is never taken. */
  lemma FailSafeUnreachable(setups: seq<Setup>, calls: seq<Call>, i: nat)
    requires Run(setups, calls) && i < |calls| && Started(setups[0])
    requires calls[i].Request? && setups[i].mode.TransparentModeOn?
    ensures Handle(setups[i], calls[i].req, calls[i].decision) == (Answer("transparent_passthrough", ""), [Forwarded])
  {
    AlwaysSound(setups, calls, i);
  }

  // ---------------------------------------------------------------- what one request counts

  function Outcomes(cs: seq<Counter>): nat {
    var m := multiset(cs);
    m[Forwarded] + m[Blocked] + m[Modified] + m[Simulated]
  }

  /** Exactly one of the four outcome counters, and no error. */
  predicate Once(cs: seq<Counter>) {
    Outcomes(cs) == 1 && Errors !in cs
  }

  /** The router answers, whatever copy of the mode it reads. */
  predicate Routes(s: Setup, action: Action) {
    HasServices(s.full) || s.configMode.TransparentModeOn?
      || (s.configMode.HalfMode? && action in {Forward, Block, Modify})
  }

  predicate Accountable(s: Setup, req: Request, d: Decision) {
    match s.mode
    case HalfMode =>
      s.engine && !d.action.Unknown? && Routes(s, d.action)
      && (d.action == Modify ==> d.modifier.Some? && !ModifyPanics(s, d.modifier.value, req))
    case TransparentModeOn => s.handler || Routes(s, Simulate)
    case _ => Routes(s, Simulate)
  }

  predicate ShortProgram(cs: seq<Counter>) {
    cs in [[], [Errors], [Forwarded], [Blocked], [Modified], [Simulated], [Modified, Errors], [Simulated, Errors]]
  }

  lemma ShortIsSingle(cs: seq<Counter>)
    requires ShortProgram(cs)
    ensures |cs| <= 2 && TotalRequests !in cs && Outcomes(cs) <= 1
    ensures Once(cs) <==> cs in [[Forwarded], [Blocked], [Modified], [Simulated]]
  {}

  lemma HalfShape(s: Setup, req: Request, d: Decision)
    requires s.mode.HalfMode?
    ensures ShortProgram(Handle(s, req, d).1)
    ensures Handle(s, req, d).1 in [[Forwarded], [Blocked], [Modified], [Simulated]] <==> Accountable(s, req, d)
  {
    var none: seq<Counter> := [];
    if Modifies(d) {
      assert [Modified] + [Errors] == [Modified, Errors] && [Modified] + none == [Modified];
    } else {
      assert none + [Errors] == [Errors] && none + ActionCounters(d.action) == ActionCounters(d.action);
    }
  }

  /** A request counts as exactly one outcome and no error if and only if it is accountable; it never counts
      as two outcomes, and never touches the total again. */
  lemma OnceIff(s: Setup, req: Request, d: Decision)
    ensures Once(Handle(s, req, d).1) <==> Accountable(s, req, d)
    ensures |Handle(s, req, d).1| <= 2 && TotalRequests !in Handle(s, req, d).1
    ensures Outcomes(Handle(s, req, d).1) <= 1
  {
    if s.mode.HalfMode? {
      HalfShape(s, req, d);
    } else {
      assert Handle(s, req, d).1 in [[Forwarded], [Simulated], [Simulated, Errors]];
    }
    ShortIsSingle(Handle(s, req, d).1);
  }

  // ---------------------------------------------------------------- configurations that account for everything

  predicate Usable(action: Action, modifier: Option<Modifier>) {
    action.IsValid() && (action == Modify ==> modifier.Some?)
  }

  ghost predicate UsableRules(rules: seq<Rule>) {
    forall r :: r in rules && r.enabled ==> Usable(r.action, r.modifier)
  }

  ghost predicate UsableCache(cache: Cache) {
    forall k :: k in cache ==> Usable(cache[k].action, cache[k].modifier)
  }

  lemma {:induction false} MatchedIsUsable(regex: Regex, rules: seq<Rule>, req: Request)
    requires UsableRules(rules) && Matched(regex, rules, req).Some?
    ensures Usable(Matched(regex, rules, req).value.action, Matched(regex, rules, req).value.modifier)
  {
    assert rules[0] in rules;
    if !Applies(regex, req, rules[0]) {
      MatchedIsUsable(regex, rules[1..], req);
    }
  }

  /** When every enabled rule that modifies carries a modifier and the default action is valid and does not
      modify, then so is every decision, however it was cached. */
  lemma DecisionsAreUsable(regex: Regex, rules: seq<Rule>, defaultAction: Action, cache: Cache, req: Request)
    requires UsableRules(rules) && UsableCache(cache) && Usable(defaultAction, None)
    ensures UsableCache(DecideWith(regex, rules, defaultAction, cache, req).0)
    ensures
      var d := DecideWith(regex, rules, defaultAction, cache, req).1;
      Usable(d.action, d.modifier)
  {
    if CacheKey(req) !in cache && Matched(regex, rules, req).Some? {
      MatchedIsUsable(regex, rules, req);
    }
  }

  lemma ConfiguredIsAccountable(s: Setup, req: Request, d: Decision)
    requires Sound(s) && HasServices(s.full) && req.headers.Some? && Usable(d.action, d.modifier)
    requires s.half.Some? ==> s.half.value.trafficModifier.Some?
    ensures Accountable(s, req, d)
  {}

  // ---------------------------------------------------------------- counters over interleaved requests

  /** A request in flight: counted in the total, or dispatched with some of its counters incremented. */
  datatype Flight = Waiting | Running(setup: Setup, req: Request, decision: Decision, tallied: nat)

  function Program(f: Flight): seq<Counter> {
    if f.Waiting? then [] else Handle(f.setup, f.req, f.decision).1
  }

  datatype State = State(stats: Stats, flights: seq<Flight>)

  const INITIAL := State(ZERO, [])

  /** Each event is one increment under the lock, or the dispatch of a request with whatever setup and decision
      it finds; requests interleave freely. */
  datatype Event = Arrive | Dispatch(i: nat, setup: Setup, req: Request, decision: Decision) | Tally(i: nat)

  predicate Enabled(s: State, e: Event) {
    match e
    case Arrive => true
    case Dispatch(i, _, _, _) => i < |s.flights| && s.flights[i].Waiting?
    case Tally(i) => i < |s.flights| && s.flights[i].Running? && s.flights[i].tallied < |Program(s.flights[i])|
  }

  function Next(s: State, e: Event): State
    requires Enabled(s, e)
  {
    match e
    case Arrive => State(Increment(s.stats, TotalRequests), s.flights + [Waiting])
    case Dispatch(i, setup, req, decision) => s.(flights := s.flights[i := Running(setup, req, decision, 0)])
    case Tally(i) =>
      var f := s.flights[i];
      State(Increment(s.stats, Program(f)[f.tallied]), s.flights[i := f.(tallied := f.tallied + 1)])
  }

  ghost predicate Execution(states: seq<State>, events: seq<Event>) {
    |states| == |events| + 1 && states[0] == INITIAL
    && forall i :: 0 <= i < |events| ==> Enabled(states[i], events[i]) && states[i + 1] == Next(states[i], events[i])
  }

  // ---------------------------------------------------------------- the invariant

  predicate WellFormed(f: Flight) {
    f.Running? ==> f.tallied <= |Program(f)|
  }

  function Tallied(f: Flight): seq<Counter>
    requires WellFormed(f)
  {
    if f.Waiting? then [] else Program(f)[..f.tallied]
  }

  ghost predicate AllWellFormed(flights: seq<Flight>) {
    forall i :: 0 <= i < |flights| ==> WellFormed(flights[i])
  }

  ghost function Tallies(flights: seq<Flight>, c: Counter): nat
    requires AllWellFormed(flights)
  {
    if flights == [] then 0 else multiset(Tallied(flights[0]))[c] + Tallies(flights[1..], c)
  }

  function Get(s: Stats, c: Counter): int {
    match c
    case TotalRequests => s.total
    case Forwarded => s.forwarded
    case Blocked => s.blocked
    case Modified => s.modified
    case Simulated => s.simulated
    case Errors => s.errors
  }

  ghost predicate Inv(s: State) {
    && AllWellFormed(s.flights)
    && s.stats.total == |s.flights|
    && forall c: Counter :: c != TotalRequests ==> Get(s.stats, c) == Tallies(s.flights, c)
  }

  lemma {:induction false} TalliesOfUpdate(flights: seq<Flight>, i: nat, f: Flight, c: Counter)
    requires AllWellFormed(flights) && i < |flights| && WellFormed(f)
    ensures AllWellFormed(flights[i := f])
    ensures Tallies(flights[i := f], c)
      == Tallies(flights, c) - multiset(Tallied(flights[i]))[c] + multiset(Tallied(f))[c]
    decreases |flights|
  {
    if i > 0 {
      TalliesOfUpdate(flights[1..], i - 1, f, c);
      assert flights[i := f][1..] == flights[1..][i - 1 := f];
    } else {
      assert flights[i := f][1..] == flights[1..];
    }
  }

  lemma {:induction false} TalliesOfArrival(flights: seq<Flight>, c: Counter)
    requires AllWellFormed(flights)
    ensures AllWellFormed(flights + [Waiting]) && Tallies(flights + [Waiting], c) == Tallies(flights, c)
    decreases |flights|
  {
    if flights == [] {
      assert (flights + [Waiting])[1..] == [];
    } else {
      assert (flights + [Waiting])[1..] == flights[1..] + [Waiting];
      TalliesOfArrival(flights[1..], c);
    }
  }

  lemma OneMoreTallied(f: Flight)
    requires WellFormed(f) && f.Running? && f.tallied < |Program(f)|
    ensures
      var f' := f.(tallied := f.tallied + 1);
      WellFormed(f') && Tallied(f') == Tallied(f) + [Program(f)[f.tallied]] && Program(f)[f.tallied] != TotalRequests
  {
    OnceIff(f.setup, f.req, f.decision);
    assert Program(f.(tallied := f.tallied + 1)) == Program(f);
  }

  lemma IncrementMoves(s: Stats, c: Counter, other: Counter)
    ensures Get(Increment(s, c), other) == Get(s, other) + multiset([c])[other]
  {}

  lemma TallyAddsOne(flights: seq<Flight>, i: nat, c: Counter, other: Counter)
    requires AllWellFormed(flights) && i < |flights|
    requires var f := flights[i]; f.Running? && f.tallied < |Program(f)| && Program(f)[f.tallied] == c
    ensures
      var flights' := flights[i := flights[i].(tallied := flights[i].tallied + 1)];
      AllWellFormed(flights') && Tallies(flights', other) == Tallies(flights, other) + multiset([c])[other]
  {
    var f := flights[i];
    OneMoreTallied(f);
    TalliesOfUpdate(flights, i, f.(tallied := f.tallied + 1), other);
    var t := Tallied(f);
    assert multiset(t + [c]) == multiset(t) + multiset([c]);
  }

  /** One more `c` among the flights and in the stats. */
  lemma CountsMoveTogether(s: State, flights: seq<Flight>, c: Counter)
    requires Inv(s) && AllWellFormed(flights) && |flights| == |s.flights| && c != TotalRequests
    requires forall other: Counter :: Tallies(flights, other) == Tallies(s.flights, other) + multiset([c])[other]
    ensures Inv(State(Increment(s.stats, c), flights))
  {
    forall other: Counter | other != TotalRequests
      ensures Get(Increment(s.stats, c), other) == Tallies(flights, other)
    {
      IncrementMoves(s.stats, c, other);
    }
    IncrementMoves(s.stats, c, TotalRequests);
  }

  lemma TalliesMove(was: seq<Flight>, i: nat) returns (c: Counter, flights: seq<Flight>)
    requires AllWellFormed(was) && i < |was| && was[i].Running? && was[i].tallied < |Program(was[i])|
    ensures c == Program(was[i])[was[i].tallied] && c != TotalRequests
    ensures flights == was[i := was[i].(tallied := was[i].tallied + 1)] && AllWellFormed(flights)
    ensures forall other: Counter :: Tallies(flights, other) == Tallies(was, other) + multiset([c])[other]
  {
    c, flights := Program(was[i])[was[i].tallied], was[i := was[i].(tallied := was[i].tallied + 1)];
    OneMoreTallied(was[i]);
    TallyAddsOne(was, i, c, c);
    forall other: Counter ensures Tallies(flights, other) == Tallies(was, other) + multiset([c])[other] {
      TallyAddsOne(was, i, c, other);
    }
  }

  /** A tally adds one counter to the stats and to the flights. */
  lemma TallyMovesOne(s: State, i: nat) returns (c: Counter, flights: seq<Flight>)
    requires AllWellFormed(s.flights) && Enabled(s, Tally(i))
    ensures Next(s, Tally(i)) == State(Increment(s.stats, c), flights)
    ensures AllWellFormed(flights) && |flights| == |s.flights| && c != TotalRequests
    ensures forall other: Counter :: Tallies(flights, other) == Tallies(s.flights, other) + multiset([c])[other]
  {
    c, flights := TalliesMove(s.flights, i);
  }

  lemma TallyKeepsInv(s: State, i: nat)
    requires Inv(s) && Enabled(s, Tally(i))
    ensures Inv(Next(s, Tally(i)))
  {
    var c, flights := TallyMovesOne(s, i);
    CountsMoveTogether(s, flights, c);
  }

  lemma StepKeepsInv(s: State, e: Event)
    requires Inv(s) && Enabled(s, e)
    ensures Inv(Next(s, e))
  {
    match e {
      case Arrive =>
        forall c: Counter ensures Tallies(s.flights + [Waiting], c) == Tallies(s.flights, c)
          && AllWellFormed(s.flights + [Waiting]) {
          TalliesOfArrival(s.flights, c);
        }
      case Dispatch(i, setup, req, decision) =>
        var f := Running(setup, req, decision, 0);
        forall c: Counter ensures AllWellFormed(s.flights[i := f])
          && Tallies(s.flights[i := f], c) == Tallies(s.flights, c) {
          TalliesOfUpdate(s.flights, i, f, c);
        }
      case Tally(i) => TallyKeepsInv(s, i);
    }
  }

  lemma {:induction false} ExecutionKeepsInv(states: seq<State>, events: seq<Event>, k: nat)
    requires Execution(states, events) && k < |states|
    ensures Inv(states[k])
  {
    if k > 0 {
      ExecutionKeepsInv(states, events, k - 1);
      StepKeepsInv(states[k - 1], events[k - 1]);
    }
  }

  // ---------------------------------------------------------------- conservation

  function OutcomesOf(s: Stats): int {
    s.forwarded + s.blocked + s.modified + s.simulated
  }

  ghost function SumOutcomes(flights: seq<Flight>): nat
    requires AllWellFormed(flights)
  {
    if flights == [] then 0 else Outcomes(Tallied(flights[0])) + SumOutcomes(flights[1..])
  }

  lemma {:induction false} SumByCounter(flights: seq<Flight>)
    requires AllWellFormed(flights)
    ensures SumOutcomes(flights) ==
      Tallies(flights, Forwarded) + Tallies(flights, Blocked) + Tallies(flights, Modified) + Tallies(flights, Simulated)
    decreases |flights|
  {
    if flights != [] {
      SumByCounter(flights[1..]);
    }
  }

  lemma OutcomesOfPart(a: seq<Counter>, b: seq<Counter>)
    ensures Outcomes(a) <= Outcomes(a + b)
  {
    assert multiset(a + b) == multiset(a) + multiset(b);
  }

  lemma PartOfProgram(f: Flight)
    requires WellFormed(f)
    ensures Outcomes(Tallied(f)) <= Outcomes(Program(f)) <= 1
  {
    if f.Running? {
      OnceIff(f.setup, f.req, f.decision);
      var program := Program(f);
      assert program == program[..f.tallied] + program[f.tallied..];
      OutcomesOfPart(program[..f.tallied], program[f.tallied..]);
    }
  }

  lemma {:induction false} SumIsBounded(flights: seq<Flight>)
    requires AllWellFormed(flights)
    ensures SumOutcomes(flights) <= |flights|
    decreases |flights|
  {
    if flights != [] {
      PartOfProgram(flights[0]);
      SumIsBounded(flights[1..]);
    }
  }

  /** At every point of every interleaving the outcomes counted do not exceed the requests counted. */
  lemma OutcomesNeverExceedTotal(states: seq<State>, events: seq<Event>, k: nat)
    requires Execution(states, events) && k < |states|
    ensures OutcomesOf(states[k].stats) <= states[k].stats.total == |states[k].flights|
  {
    ExecutionKeepsInv(states, events, k);
    StatsAreSums(states[k]);
    SumIsBounded(states[k].flights);
  }

  /** No request is on its way. */
  ghost predicate Quiescent(flights: seq<Flight>) {
    forall i :: 0 <= i < |flights| ==> Finished(flights[i])
  }

  predicate Finished(f: Flight) {
    f.Running? && f.tallied == |Program(f)|
  }

  predicate AccountableFlight(f: Flight) {
    f.Running? && Accountable(f.setup, f.req, f.decision)
  }

  ghost predicate AllAccountable(flights: seq<Flight>) {
    forall i :: 0 <= i < |flights| ==> AccountableFlight(flights[i])
  }

  lemma FinishedCounts(f: Flight)
    requires Finished(f)
    ensures AccountableFlight(f) <==> Outcomes(Tallied(f)) == 1 && multiset(Tallied(f))[Errors] == 0
    ensures Outcomes(Tallied(f)) <= 1
  {
    OnceIff(f.setup, f.req, f.decision);
    assert Program(f)[..f.tallied] == Program(f);
  }

  lemma {:induction false} SumAtRest(flights: seq<Flight>)
    requires AllWellFormed(flights) && Quiescent(flights)
    ensures SumOutcomes(flights) == |flights| && Tallies(flights, Errors) == 0 <==> AllAccountable(flights)
    decreases |flights|
  {
    if flights != [] {
      FinishedCounts(flights[0]);
      SumIsBounded(flights[1..]);
      assert Quiescent(flights[1..]) by {
        assert forall i :: 0 <= i < |flights[1..]| ==> flights[1..][i] == flights[i + 1];
      }
      SumAtRest(flights[1..]);
      assert AllAccountable(flights) <==> AccountableFlight(flights[0]) && AllAccountable(flights[1..]) by {
        assert forall i :: 0 < i < |flights| ==> flights[i] == flights[1..][i - 1];
      }
    }
  }

  /** The outcomes add up to the total, and there are no errors. */
  predicate AddsUp(s: Stats) {
    OutcomesOf(s) == s.total && s.errors == 0
  }

  lemma StatsAreSums(s: State)
    requires Inv(s)
    ensures OutcomesOf(s.stats) == SumOutcomes(s.flights) && s.stats.errors == Tallies(s.flights, Errors)
  {
    SumByCounter(s.flights);
    assert forall c: Counter :: c != TotalRequests ==> Get(s.stats, c) == Tallies(s.flights, c);
    assert Get(s.stats, Forwarded) == s.stats.forwarded && Get(s.stats, Blocked) == s.stats.blocked;
    assert Get(s.stats, Modified) == s.stats.modified && Get(s.stats, Simulated) == s.stats.simulated;
    assert Get(s.stats, Errors) == s.stats.errors;
  }

  lemma AtRest(s: State)
    requires Inv(s) && Quiescent(s.flights)
    ensures AddsUp(s.stats) <==> AllAccountable(s.flights)
  {
    StatsAreSums(s);
    SumAtRest(s.flights);
  }

  /** When no request is on its way, the outcomes add up to the total without errors if and only if every
      request handled was accountable. */
  lemma OutcomesEqualTotalIff(states: seq<State>, events: seq<Event>, k: nat)
    requires Execution(states, events) && k < |states| && Quiescent(states[k].flights)
    ensures AddsUp(states[k].stats) <==> AllAccountable(states[k].flights)
  {
    ExecutionKeepsInv(states, events, k);
    AtRest(states[k]);
  }
}
