/** The network mode controller: it dispatches on its own copy of the mode while the router reads the mode
    from the configuration object that both share. */
module NetworkController {
  import opened Options
  import opened NetworkRequest
  import opened DecisionEngine
  import DecisionGuarantees
  import TransparentMode

  datatype Mode = FullMode | HalfMode | TransparentModeOn | InvalidMode(name: string)

  datatype Services = Services(
    dns: string, dnsAddress: string, http: string, httpAddress: string, https: string, httpsAddress: string,
    smtp: string, smtpAddress: string, ftp: string, ftpAddress: string)

  datatype ModifierConfig = ModifierConfig(
    enabled: bool, stripAuthHeaders: bool, injectTrackingHeaders: bool, sandboxExecutables: bool)

  datatype FullConfig = FullConfig(services: Option<Services>)

  datatype HalfConfig = HalfConfig(enabled: bool, proxy: bool, defaultAction: Action,
      trafficModifier: Option<ModifierConfig>)

  datatype TransparentConfig = TransparentConfig(enabled: bool, handling: TransparentMode.Config)

  datatype Error =
    | ErrInvalidMode | ErrMissingConfig | ErrMissingServiceConfig | ErrMissingProxyConfig
    | ErrHalfModeNotEnabled | ErrTransparentModeNotEnabled | ErrInvalidAction

  /** The configuration object; only the mode is ever assigned. */
  class Config {
    var mode: Mode
    const full: Option<FullConfig>
    const half: Option<HalfConfig>
    const transparent: Option<TransparentConfig>
    const hasLogging: bool

    constructor (mode: Mode, full: Option<FullConfig>, half: Option<HalfConfig>, transparent: Option<TransparentConfig>,
                 hasLogging: bool)
      ensures this.mode == mode && this.full == full && this.half == half && this.transparent == transparent
      ensures this.hasLogging == hasLogging
    {
      this.mode, this.full, this.half, this.transparent, this.hasLogging := mode, full, half, transparent, hasLogging;
    }

    /** The first problem with the section of the current mode, if any. */
    function Validate(): Option<Error>
      reads this
    {
      ValidateSection(mode, full, half, transparent)
    }
  }

  function ValidateSection(mode: Mode, full: Option<FullConfig>, half: Option<HalfConfig>,
      transparent: Option<TransparentConfig>)
    : Option<Error>
  {
    match mode
    case InvalidMode(_) => Some(ErrInvalidMode)
    case FullMode =>
      if full.None? then Some(ErrMissingConfig)
      else if full.value.services.None? then Some(ErrMissingServiceConfig)
      else None
    case HalfMode =>
      if half.None? then Some(ErrMissingConfig)
      else if !half.value.enabled then Some(ErrHalfModeNotEnabled)
      else if !half.value.proxy then Some(ErrMissingProxyConfig)
      else if !half.value.defaultAction.IsValid() then Some(ErrInvalidAction)
      else None
    case TransparentModeOn =>
      if transparent.None? then Some(ErrMissingConfig)
      else if !transparent.value.enabled then Some(ErrTransparentModeNotEnabled)
      else None
  }

  // ---------------------------------------------------------------- routing

  /** An answer, a returned error, or a panic that was recovered, which yields no answer and no error. */
  datatype Outcome = Answer(source: string, service: string) | Failed | Recovered

  function ServiceAddress(s: Services, protocol: string): string {
    if protocol == "DNS" then (if s.dnsAddress != "" then s.dnsAddress else s.dns)
    else if protocol == "HTTP" then (if s.httpAddress != "" then s.httpAddress else s.http)
    else if protocol == "HTTPS" then (if s.httpsAddress != "" then s.httpsAddress else s.https)
    else if protocol == "SMTP" then (if s.smtpAddress != "" then s.smtpAddress else s.smtp)
    else if protocol == "FTP" then (if s.ftpAddress != "" then s.ftpAddress else s.ftp)
    else s.httpAddress
  }

  function RouteFull(full: Option<FullConfig>, req: Request): Outcome {
    if full.None? || full.value.services.None? then Failed
    else Answer("simulated", ServiceAddress(full.value.services.value, req.protocol))
  }

  function RouteByMode(mode: Mode, full: Option<FullConfig>, req: Request, decision: Option<Decision>): Outcome {
    match mode
    case HalfMode =>
      if decision.None? then Failed
      else (match decision.value.action
            case Forward => Answer("real", "")
            case Block => Answer("blocked", "")
            case Modify => Answer("real", "")
            case _ => RouteFull(full, req))
    case TransparentModeOn => Answer("transparent_passthrough", "")
    case _ => RouteFull(full, req)
  }

  class Router {
    const config: Config

    constructor (config: Config)
      ensures this.config == config
    {
      this.config := config;
    }

    function RouteRequest(req: Request, decision: Option<Decision>): Outcome
      reads config
    {
      RouteByMode(config.mode, config.full, req, decision)
    }
  }

  // ---------------------------------------------------------------- counters

  datatype Counter = TotalRequests | Forwarded | Blocked | Modified | Simulated | Errors

  datatype Stats = Stats(total: int, forwarded: int, blocked: int, modified: int, simulated: int, errors: int)

  const ZERO := Stats(0, 0, 0, 0, 0, 0)

  function Increment(s: Stats, c: Counter): Stats {
    match c
    case TotalRequests => s.(total := s.total + 1)
    case Forwarded => s.(forwarded := s.forwarded + 1)
    case Blocked => s.(blocked := s.blocked + 1)
    case Modified => s.(modified := s.modified + 1)
    case Simulated => s.(simulated := s.simulated + 1)
    case Errors => s.(errors := s.errors + 1)
  }

  function IncrementAll(s: Stats, cs: seq<Counter>): Stats
    decreases |cs|
  {
    if cs == [] then s else IncrementAll(Increment(s, cs[0]), cs[1..])
  }

  // ---------------------------------------------------------------- the setup

  /** Both copies of the mode, the sections of the configuration and the components that exist. A modifier may
      exist without a configuration. */
  datatype Setup = Setup(
    mode: Mode, configMode: Mode, full: Option<FullConfig>, half: Option<HalfConfig>,
    transparent: Option<TransparentConfig>, engine: bool, modifier: Option<Option<ModifierConfig>>, handler: bool)

  function NewModifier(half: Option<HalfConfig>): Option<Option<ModifierConfig>> {
    if half.None? then None else Some(half.value.trafficModifier)
  }

  function NewSetup(mode: Mode, full: Option<FullConfig>, half: Option<HalfConfig>,
      transparent: Option<TransparentConfig>)
    : Setup
  {
    Setup(mode, mode, full, half, transparent, mode.HalfMode?, if mode.HalfMode? then NewModifier(half) else None,
          mode.TransparentModeOn?)
  }

  /** A mode that is invalid or not enabled is refused and nothing changes; otherwise both copies change, and
      missing components are created while existing ones are kept. */
  function Switched(s: Setup, newMode: Mode): (Setup, Option<Error>) {
    if newMode.InvalidMode? then (s, Some(ErrInvalidMode))
    else if newMode.HalfMode? && (s.half.None? || !s.half.value.enabled) then (s, Some(ErrHalfModeNotEnabled))
    else if newMode.TransparentModeOn? && (s.transparent.None? || !s.transparent.value.enabled)
    then (s, Some(ErrTransparentModeNotEnabled))
    else
      (s.(mode := newMode, configMode := newMode,
          engine := s.engine || newMode.HalfMode?,
          modifier := if newMode.HalfMode? && !s.engine then NewModifier(s.half) else s.modifier,
          handler := s.handler || newMode.TransparentModeOn?), None)
  }

  // ---------------------------------------------------------------- one request

  /** Modifying a request panics without a configuration, and when it must write to a nil header map. */
  predicate ModifyPanics(s: Setup, m: Modifier, req: Request) {
    s.modifier.None? || s.modifier.value.None?
    || (s.modifier.value.value.enabled && req.headers.None?
        && (|m.injectHeaders| > 0 || s.modifier.value.value.injectTrackingHeaders))
  }

  predicate Sandboxes(s: Setup, m: Modifier) {
    s.modifier.Some? && s.modifier.value.Some? && s.modifier.value.value.enabled
    && s.modifier.value.value.sandboxExecutables && m.kind == "sandbox_executable"
  }

  const SIMULATE := Decision(Simulate, "", "", None)

  function HandleFull(s: Setup, req: Request): (Outcome, seq<Counter>) {
    var outcome := RouteByMode(s.configMode, s.full, req, Some(SIMULATE));
    (outcome, if outcome.Failed? then [Simulated, Errors] else [Simulated])
  }

  function ActionCounters(a: Action): seq<Counter> {
    match a
    case Forward => [Forwarded]
    case Block => [Blocked]
    case Simulate => [Simulated]
    case _ => []
  }

  predicate Modifies(d: Decision) {
    d.action == Modify && d.modifier.Some?
  }

  function HandleHalf(s: Setup, req: Request, d: Decision): (Outcome, seq<Counter>) {
    if !s.engine || (Modifies(d) && ModifyPanics(s, d.modifier.value, req)) then (Recovered, [Errors]) else
      var before := if Modifies(d) then [Modified] else [];
      var outcome := RouteByMode(s.configMode, s.full, req, Some(d));
      if outcome.Failed? then (Failed, before + [Errors])
      else if Modifies(d) && Sandboxes(s, d.modifier.value) then (Answer("sandboxed", ""), before)
      else (outcome, before + ActionCounters(d.action))
  }

  /** The outcome of a request and the counters it increments after the total, in order. The decision matters
      in half mode only. */
  function Handle(s: Setup, req: Request, d: Decision): (Outcome, seq<Counter>) {
    match s.mode
    case HalfMode => HandleHalf(s, req, d)
    case TransparentModeOn => if s.handler then (Answer("transparent_passthrough", ""), [Forwarded])
      else HandleFull(s, req)
    case _ => HandleFull(s, req)
  }

  // ---------------------------------------------------------------- the controller

  class Controller {
    var mode: Mode
    const config: Config
    const router: Router
    const regex: Regex
    var decisionEngine: DecisionEngine?
    var modifier: Option<Option<ModifierConfig>>
    var transparentHandler: TransparentMode.TransparentModeHandler?
    var stats: Stats

    function CurrentSetup(): Setup
      reads this, config
    {
      Setup(mode, config.mode, config.full, config.half, config.transparent, decisionEngine != null, modifier,
            transparentHandler != null)
    }

    /** The controller and the router share one configuration, and the current mode has its components. */
    ghost predicate Valid()
      reads this, config
    {
      && router.config == config
      && (mode.HalfMode? ==> decisionEngine != null)
      && (mode.TransparentModeOn? ==> transparentHandler != null)
      && (decisionEngine != null ==> decisionEngine.regex == regex && config.half.Some?)
      && (decisionEngine != null ==> decisionEngine.defaultAction == config.half.value.defaultAction)
      && (decisionEngine != null ==> modifier == Some(config.half.value.trafficModifier))
    }

    constructor (config: Config, regex: Regex)
      requires config.Validate().None? && config.hasLogging
      ensures Valid() && this.config == config && this.regex == regex && stats == ZERO
      ensures CurrentSetup() == NewSetup(config.mode, config.full, config.half, config.transparent)
      ensures decisionEngine != null ==> fresh(decisionEngine) && HasDefaultRules(decisionEngine)
      ensures transparentHandler != null ==>
        fresh(transparentHandler) && transparentHandler.table == TransparentMode.EMPTY
    {
      mode := config.mode;
      this.config := config;
      router := new Router(config);
      this.regex := regex;
      decisionEngine, modifier, transparentHandler := null, None, null;
      stats := ZERO;
      new;
      if config.mode.HalfMode? {
        NewHalfComponents();
      }
      if config.mode.TransparentModeOn? {
        transparentHandler := new TransparentMode.TransparentModeHandler(config.transparent.value.handling);
      }
    }

    method NewHalfComponents()
      requires config.half.Some?
      modifies this`decisionEngine, this`modifier
      ensures decisionEngine != null && fresh(decisionEngine) && HasDefaultRules(decisionEngine)
      ensures modifier == Some(config.half.value.trafficModifier)
      ensures decisionEngine.regex == regex && decisionEngine.defaultAction == config.half.value.defaultAction
    {
      var engine := new DecisionEngine(config.half.value.defaultAction, regex);
      var defaults := DecisionGuarantees.DefaultRules();
      var ok := engine.AddRules(defaults);
      AllDefaultsAdded(defaults, engine.rules);
      decisionEngine := engine;
      modifier := Some(config.half.value.trafficModifier);
    }

    method SwitchMode(newMode: Mode) returns (error: Option<Error>)
      requires Valid()
      modifies this`mode, this`decisionEngine, this`modifier, this`transparentHandler, config
      ensures Valid()
      ensures (CurrentSetup(), error) == Switched(old(CurrentSetup()), newMode)
      ensures old(decisionEngine) != null ==> decisionEngine == old(decisionEngine)
      ensures old(decisionEngine) == null && decisionEngine != null ==>
        fresh(decisionEngine) && HasDefaultRules(decisionEngine)
      ensures old(transparentHandler) != null ==> transparentHandler == old(transparentHandler)
      ensures old(transparentHandler) == null && transparentHandler != null ==> fresh(transparentHandler)
    {
      if newMode.InvalidMode? {
        return Some(ErrInvalidMode);
      }
      if newMode.HalfMode? {
        if config.half.None? || !config.half.value.enabled {
          return Some(ErrHalfModeNotEnabled);
        }
      }
      if newMode.TransparentModeOn? {
        if config.transparent.None? || !config.transparent.value.enabled {
          return Some(ErrTransparentModeNotEnabled);
        }
      }
      mode := newMode;
      config.mode := newMode;
      if newMode.HalfMode? && decisionEngine == null {
        NewHalfComponents();
      }
      if newMode.TransparentModeOn? && transparentHandler == null {
        transparentHandler := new TransparentMode.TransparentModeHandler(config.transparent.value.handling);
      }
      return None;
    }

    /** Rules are accepted in half mode only. */
    method AddDecisionRule(rule: Rule) returns (added: bool)
      requires Valid()
      modifies decisionEngine
      ensures Valid() && CurrentSetup() == old(CurrentSetup())
      ensures added <==> mode.HalfMode? && rule.action.IsValid()
      ensures added ==> ByPriority(decisionEngine.rules)
      ensures added ==> multiset(decisionEngine.rules) == multiset(old(decisionEngine.rules)) + multiset{rule}
      ensures !added && decisionEngine != null ==> decisionEngine.rules == old(decisionEngine.rules)
      ensures decisionEngine != null ==> decisionEngine.ruleCache == old(decisionEngine.ruleCache)
    {
      if !mode.HalfMode? || decisionEngine == null {
        return false;
      }
      added := decisionEngine.AddRule(rule);
    }

    /** Handles one request with nothing in between. The decision in half mode is the one that the engine's
        cache and rules give. */
    method HandleRequest(req: Request) returns (outcome: Outcome, ghost decision: Decision)
      requires Valid()
      modifies this`stats, decisionEngine, transparentHandler
      ensures Valid() && CurrentSetup() == old(CurrentSetup())
      ensures decisionEngine != null ==> decisionEngine.rules == old(decisionEngine.rules)
      ensures mode.HalfMode? ==>
        (decisionEngine.ruleCache, decision)
        == DecideWith(regex, decisionEngine.rules, decisionEngine.defaultAction, old(decisionEngine.ruleCache), req)
      ensures outcome == Handle(CurrentSetup(), req, decision).0
      ensures stats == IncrementAll(Increment(old(stats), TotalRequests), Handle(CurrentSetup(), req, decision).1)
    {
      stats := Increment(stats, TotalRequests);
      decision := SIMULATE;
      match mode {
        case HalfMode =>
          var d := decisionEngine.Decide(req);
          decision := d;
          outcome := HandleHalfMode(req, d);
        case TransparentModeOn =>
          outcome := HandleTransparentMode(req);
        case _ =>
          outcome := HandleFullMode(req);
      }
    }

    method HandleFullMode(req: Request) returns (outcome: Outcome)
      requires router.config == config
      modifies this`stats
      ensures outcome == HandleFull(CurrentSetup(), req).0
      ensures stats == IncrementAll(old(stats), HandleFull(CurrentSetup(), req).1)
    {
      stats := Increment(stats, Simulated);
      IncrementOne(old(stats), Simulated);
      outcome := router.RouteRequest(req, Some(SIMULATE));
      if outcome.Failed? {
        stats := Increment(stats, Errors);
        AppendOne(old(stats), [Simulated], Errors);
        assert [Simulated] + [Errors] == [Simulated, Errors];
      }
    }

    method HandleTransparentMode(req: Request) returns (outcome: Outcome)
      requires router.config == config && mode.TransparentModeOn?
      modifies this`stats, transparentHandler
      ensures outcome == Handle(CurrentSetup(), req, SIMULATE).0
      ensures stats == IncrementAll(old(stats), Handle(CurrentSetup(), req, SIMULATE).1)
    {
      if transparentHandler == null {
        outcome := HandleFullMode(req);
      } else {
        var source := transparentHandler.HandleRequest(req);
        outcome := Answer(source, "");
        stats := Increment(stats, Forwarded);
        IncrementOne(old(stats), Forwarded);
      }
    }

    method HandleHalfMode(req: Request, d: Decision) returns (outcome: Outcome)
      requires Valid() && mode.HalfMode?
      modifies this`stats
      ensures outcome == HandleHalf(CurrentSetup(), req, d).0
      ensures stats == IncrementAll(old(stats), HandleHalf(CurrentSetup(), req, d).1)
    {
      var s := CurrentSetup();
      ghost var counters: seq<Counter> := [];
      if d.action == Modify && d.modifier.Some? {
        if ModifyPanics(s, d.modifier.value, req) {
          stats := Increment(stats, Errors);
          IncrementOne(old(stats), Errors);
          return Recovered;
        }
        stats := Increment(stats, Modified);
        IncrementOne(old(stats), Modified);
        counters := [Modified];
      }
      outcome := router.RouteRequest(req, Some(d));
      if outcome.Failed? {
        stats := Increment(stats, Errors);
        AppendOne(old(stats), counters, Errors);
        return;
      }
      CountAction(d.action, counters, old(stats));
      if d.action == Modify && d.modifier.Some? && Sandboxes(s, d.modifier.value) {
        outcome := Answer("sandboxed", "");
      }
    }

    method CountAction(action: Action, ghost counters: seq<Counter>, ghost was: Stats)
      requires stats == IncrementAll(was, counters)
      modifies this`stats
      ensures stats == IncrementAll(was, counters + ActionCounters(action))
    {
      match action {
        case Forward =>
          stats := Increment(stats, Forwarded);
          AppendOne(was, counters, Forwarded);
        case Block =>
          stats := Increment(stats, Blocked);
          AppendOne(was, counters, Blocked);
        case Simulate =>
          stats := Increment(stats, Simulated);
          AppendOne(was, counters, Simulated);
        case _ =>
          assert counters + [] == counters;
      }
    }

    /** The controller is healthy exactly when the configuration has what its current mode needs. */
    method Health() returns (healthy: bool)
      requires Valid() && CurrentSetup().mode == CurrentSetup().configMode
      ensures healthy <==> config.Validate().None?
    {
      if mode.InvalidMode? || config.Validate().Some? {
        return false;
      }
      if mode.HalfMode? && decisionEngine == null {
        return false;
      }
      if mode.HalfMode? && modifier.None? {
        return false;
      }
      if mode.TransparentModeOn? && transparentHandler == null {
        return false;
      }
      return true;
    }
  }

  datatype Creation = Created(controller: Controller) | Rejected(error: Error) | Panicked

  /** A configuration that does not validate is rejected; one that does but has no logging section panics when the
      logger is created, as validation does not look at it. */
  method NewController(config: Config, regex: Regex) returns (creation: Creation)
    ensures creation.Rejected? <==> config.Validate().Some?
    ensures creation.Rejected? ==> config.Validate() == Some(creation.error)
    ensures creation.Panicked? <==> config.Validate().None? && !config.hasLogging
    ensures creation.Created? ==>
      fresh(creation.controller) && creation.controller.Valid() && creation.controller.config == config
    ensures creation.Created? ==>
      creation.controller.CurrentSetup() == NewSetup(config.mode, config.full, config.half, config.transparent)
  {
    var error := config.Validate();
    if error.Some? {
      return Rejected(error.value);
    }
    if !config.hasLogging {
      return Panicked;
    }
    var controller := new Controller(config, regex);
    return Created(controller);
  }

  ghost predicate HasDefaultRules(engine: DecisionEngine)
    reads engine
  {
    ByPriority(engine.rules) && engine.ruleCache == map[]
    && multiset(engine.rules) == multiset(DecisionGuarantees.DefaultRules())
  }

  lemma IncrementOne(s: Stats, c: Counter)
    ensures IncrementAll(s, [c]) == Increment(s, c)
  {
    assert [c][1..] == [];
  }

  lemma {:induction false} AppendOne(s: Stats, cs: seq<Counter>, c: Counter)
    ensures IncrementAll(s, cs + [c]) == Increment(IncrementAll(s, cs), c)
    decreases |cs|
  {
    if cs == [] {
      IncrementOne(s, c);
      assert cs + [c] == [c];
    } else {
      assert (cs + [c])[1..] == cs[1..] + [c];
      AppendOne(Increment(s, cs[0]), cs[1..], c);
    }
  }

  lemma AllDefaultsAdded(defaults: seq<Rule>, rules: seq<Rule>)
    requires defaults == DecisionGuarantees.DefaultRules()
    requires exists n :: (0 <= n <= |defaults| && ValidUpTo(defaults, n)
      && multiset(rules) == multiset{} + multiset(defaults[..n]))
    ensures multiset(rules) == multiset(defaults)
  {
    var n :| 0 <= n <= |defaults| && ValidUpTo(defaults, n) && multiset(rules) == multiset{} + multiset(defaults[..n]);
    assert n == |defaults|;
    assert defaults[..n] == defaults;
  }
}
