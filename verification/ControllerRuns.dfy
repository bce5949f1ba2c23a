/** The controller with its engine over whole runs: mode switches, rule additions, cache clearings and interleaved
    requests, from a fresh controller on. */
module ControllerRuns {
  import opened Options
  import opened NetworkRequest
  import opened DecisionEngine
  import opened DecisionGuarantees
  import opened NetworkController
  import opened ControllerGuarantees

  datatype World = World(setup: Setup, rules: seq<Rule>, cache: Cache, counters: State)

  datatype Change =
    | SwitchTo(mode: Mode)
    | AddDecisionRule(rule: Rule)
    | ClearDecisionCache
    | Arrives
    | Handles(i: nat, req: Request)
    | Counts(i: nat)

  ghost predicate IsDefaultRules(rules: seq<Rule>) {
    ByPriority(rules) && multiset(rules) == multiset(DefaultRules())
  }

  function DefaultActionOf(s: Setup): Action {
    if s.half.Some? then s.half.value.defaultAction else Simulate
  }

  /** The decision that a request gets, and the cache afterwards. */
  function DecisionFor(regex: Regex, w: World, req: Request): (Cache, Decision) {
    if w.setup.mode.HalfMode? && w.setup.engine then DecideWith(regex, w.rules, DefaultActionOf(w.setup), w.cache, req)
    else (w.cache, SIMULATE)
  }

  /** A switch that creates the engine loads the default rules. */
  ghost predicate Switches(w: World, newMode: Mode, w': World) {
    && w'.setup == Switched(w.setup, newMode).0 && w'.counters == w.counters
    && if w'.setup.engine && !w.setup.engine then IsDefaultRules(w'.rules) && w'.cache == map[]
       else w'.rules == w.rules && w'.cache == w.cache
  }

  function WithRule(w: World, rule: Rule): World {
    if w.setup.mode.HalfMode? && w.setup.engine && rule.action.IsValid()
    then w.(rules := Sorted(w.rules + [rule])) else w
  }

  /** How one event on the counters moves the world. */
  ghost predicate Moves(w: World, e: Event, w': World) {
    && Enabled(w.counters, e) && w'.counters == Next(w.counters, e)
    && w'.setup == w.setup && w'.rules == w.rules
  }

  ghost predicate WorldStep(regex: Regex, w: World, c: Change, w': World) {
    match c
    case SwitchTo(mode) => Switches(w, mode, w')
    case AddDecisionRule(rule) => w' == WithRule(w, rule)
    case ClearDecisionCache => w' == w.(cache := map[])
    case Arrives => Moves(w, Arrive, w') && w'.cache == w.cache
    case Handles(i, req) =>
      var (cache, decision) := DecisionFor(regex, w, req);
      Moves(w, Dispatch(i, w.setup, req, decision), w') && w'.cache == cache
    case Counts(i) => Moves(w, Tally(i), w') && w'.cache == w.cache
  }

  /** A fresh controller for a configuration that validates. */
  ghost predicate Begins(w: World) {
    && Started(w.setup) && w.cache == map[] && w.counters == INITIAL
    && if w.setup.engine then IsDefaultRules(w.rules) else w.rules == []
  }

  ghost predicate WorldRun(regex: Regex, ws: seq<World>, cs: seq<Change>) {
    |ws| == |cs| + 1 && Begins(ws[0]) && forall i :: 0 <= i < |cs| ==> WorldStep(regex, ws[i], cs[i], ws[i + 1])
  }

  // ---------------------------------------------------------------- what accounts for every request

  /** The configuration has services, and half mode, if configured, a traffic modifier and a valid default action
      that does not modify. */
  predicate GoodConfiguration(s: Setup) {
    HasServices(s.full)
    && (s.half.Some? ==> s.half.value.trafficModifier.Some? && Usable(s.half.value.defaultAction, None))
  }

  /** Rules that are added and modify carry a modifier, and requests have a header map. */
  predicate GoodChange(c: Change) {
    (c.AddDecisionRule? && c.rule.enabled && c.rule.action == Modify ==> c.rule.modifier.Some?)
    && (c.Handles? ==> c.req.headers.Some?)
  }

  ghost predicate GoodChanges(cs: seq<Change>) {
    forall i :: 0 <= i < |cs| ==> GoodChange(cs[i])
  }

  predicate StaysAccountable(f: Flight) {
    f.Running? ==> Accountable(f.setup, f.req, f.decision)
  }

  ghost predicate WorldOk(w: World) {
    && Sound(w.setup) && GoodConfiguration(w.setup)
    && UsableRules(w.rules) && UsableCache(w.cache)
    && Inv(w.counters)
    && forall i :: 0 <= i < |w.counters.flights| ==> StaysAccountable(w.counters.flights[i])
  }

  lemma DefaultsAreUsable(rules: seq<Rule>)
    requires IsDefaultRules(rules)
    ensures UsableRules(rules)
  {
    forall r | r in rules ensures Usable(r.action, r.modifier) {
      assert r in multiset(rules);
      assert r in multiset(DefaultRules());
      assert r in DefaultRules();
    }
  }

  lemma AddedStaysUsable(rules: seq<Rule>, rule: Rule)
    requires UsableRules(rules) && (rule.enabled ==> Usable(rule.action, rule.modifier))
    ensures UsableRules(Sorted(rules + [rule]))
  {
    SortedIsSorted(rules + [rule]);
    forall r | r in Sorted(rules + [rule]) && r.enabled ensures Usable(r.action, r.modifier) {
      assert r in multiset(Sorted(rules + [rule]));
      assert r in multiset(rules + [rule]);
      assert r in rules || r == rule;
    }
  }

  lemma SwitchKeepsOk(w: World, newMode: Mode, w': World)
    requires WorldOk(w) && Switches(w, newMode, w')
    ensures WorldOk(w')
  {
    if w'.setup.engine && !w.setup.engine {
      DefaultsAreUsable(w'.rules);
    }
  }

  lemma HandlingKeepsOk(regex: Regex, w: World, i: nat, req: Request, w': World)
    requires WorldOk(w) && req.headers.Some? && WorldStep(regex, w, Handles(i, req), w')
    ensures WorldOk(w')
  {
    var (cache, decision) := DecisionFor(regex, w, req);
    if w.setup.mode.HalfMode? && w.setup.engine {
      DecisionsAreUsable(regex, w.rules, DefaultActionOf(w.setup), w.cache, req);
    }
    ConfiguredIsAccountable(w.setup, req, decision);
    ControllerGuarantees.StepKeepsInv(w.counters, Dispatch(i, w.setup, req, decision));
  }

  lemma StepKeepsOk(regex: Regex, w: World, c: Change, w': World)
    requires WorldOk(w) && GoodChange(c) && WorldStep(regex, w, c, w')
    ensures WorldOk(w')
  {
    match c {
      case SwitchTo(mode) => SwitchKeepsOk(w, mode, w');
      case AddDecisionRule(rule) =>
        if rule.action.IsValid() {
          AddedStaysUsable(w.rules, rule);
        }
      case ClearDecisionCache =>
      case Arrives => ControllerGuarantees.StepKeepsInv(w.counters, Arrive);
      case Handles(i, req) => HandlingKeepsOk(regex, w, i, req, w');
      case Counts(i) => ControllerGuarantees.StepKeepsInv(w.counters, Tally(i));
    }
  }

  lemma {:induction false} RunKeepsOk(regex: Regex, ws: seq<World>, cs: seq<Change>, k: nat)
    requires WorldRun(regex, ws, cs) && GoodConfiguration(ws[0].setup) && GoodChanges(cs) && k < |ws|
    ensures WorldOk(ws[k])
  {
    if k > 0 {
      RunKeepsOk(regex, ws, cs, k - 1);
      StepKeepsOk(regex, ws[k - 1], cs[k - 1], ws[k]);
    } else if ws[0].setup.engine {
      DefaultsAreUsable(ws[0].rules);
    }
  }

  /** For a good configuration, whose rules are the default ones and good ones added later, in any run with any
      switches and any interleaving: when no request is on its way, the outcomes add up to the total and there are
      no errors. */
  lemma ConfiguredRunConserves(regex: Regex, ws: seq<World>, cs: seq<Change>, k: nat)
    requires WorldRun(regex, ws, cs) && GoodConfiguration(ws[0].setup) && GoodChanges(cs)
    requires k < |ws| && Quiescent(ws[k].counters.flights)
    ensures AddsUp(ws[k].counters.stats)
  {
    RunKeepsOk(regex, ws, cs, k);
    AtRest(ws[k].counters);
    forall i | 0 <= i < |ws[k].counters.flights| ensures AccountableFlight(ws[k].counters.flights[i]) {
      assert Finished(ws[k].counters.flights[i]) && StaysAccountable(ws[k].counters.flights[i]);
    }
  }
}
