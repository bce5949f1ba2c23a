/** Which answer each request gets and which counters it moves, for every setup of the controller. */
module ControllerAnswers {
  import opened Options
  import opened NetworkRequest
  import opened DecisionEngine
  import opened NetworkController
  import opened ControllerGuarantees

  // ---------------------------------------------------------------- the path of a request

  /** Modifying needs a configuration, and a header map when it sets a header. */
  predicate CanModify(s: Setup, m: Modifier, req: Request) {
    match s.modifier
    case Some(Some(c)) => c.enabled && req.headers == None ==> m.injectHeaders == map[] && !c.injectTrackingHeaders
    case _ => false
  }

  /** Half mode gets as far as the router. */
  predicate HalfRuns(s: Setup, req: Request, d: Decision) {
    && s.mode.HalfMode? && s.engine
    && (d.action == Modify && d.modifier.Some? ==> CanModify(s, d.modifier.value, req))
  }

  /** The request is handled as in full mode: in full mode, in an invalid one, and in transparent mode without its
      handler. */
  predicate Falls(s: Setup) {
    s.mode.FullMode? || s.mode.InvalidMode? || (s.mode.TransparentModeOn? && !s.handler)
  }

  /** The decision's modifier replaces the answer. */
  predicate Replaces(s: Setup, d: Decision) {
    d.action == Modify && d.modifier.Some? && d.modifier.value.kind == "sandbox_executable"
    && match s.modifier
       case Some(Some(c)) => c.enabled && c.sandboxExecutables
       case _ => false
  }

  /** The router, on its copy of the mode, turns to the simulation services. */
  predicate Simulates(s: Setup, action: Action) {
    match s.configMode
    case TransparentModeOn => false
    case HalfMode => action == Simulate || action.Unknown?
    case _ => true
  }

  predicate HasSource(outcome: Outcome, source: string) {
    outcome.Answer? && outcome.source == source
  }

  lemma SourcesDiffer()
    ensures |"real"| == 4 && |"blocked"| == 7 && |"simulated"| == 9 && |"sandboxed"| == 9
    ensures |"transparent_passthrough"| == 23 && "simulated"[1] == 'i' && "sandboxed"[1] == 'a'
  {}

  /** A configuration validates exactly when it has what its mode needs: services; an enabled half mode with a proxy
      and a known default action; an enabled transparent mode. */
  lemma ValidatesIff(
    mode: Mode, full: Option<FullConfig>, half: Option<HalfConfig>, transparent: Option<TransparentConfig>)
    ensures ValidateSection(mode, full, half, transparent) == None <==>
      || (mode.FullMode? && HasServices(full))
      || (mode.HalfMode? && half.Some? && half.value.enabled && half.value.proxy
          && half.value.defaultAction in {Forward, Block, Modify, Simulate})
      || (mode.TransparentModeOn? && transparent.Some? && transparent.value.enabled)
  {}

  /** Which problem is reported. */
  lemma ProblemIff(
    mode: Mode, full: Option<FullConfig>, half: Option<HalfConfig>, transparent: Option<TransparentConfig>)
    ensures
      var error := ValidateSection(mode, full, half, transparent);
      && (error == Some(ErrInvalidMode) <==> mode.InvalidMode?)
      && (error == Some(ErrMissingConfig) <==>
            (mode.FullMode? && full == None) || (mode.HalfMode? && half == None)
            || (mode.TransparentModeOn? && transparent == None))
      && (error == Some(ErrMissingServiceConfig) <==> mode.FullMode? && full.Some? && !HasServices(full))
      && (error == Some(ErrHalfModeNotEnabled) <==> mode.HalfMode? && half.Some? && !half.value.enabled)
      && (error == Some(ErrMissingProxyConfig) <==>
            mode.HalfMode? && half.Some? && half.value.enabled && !half.value.proxy)
      && (error == Some(ErrInvalidAction) <==>
            mode.HalfMode? && half.Some? && half.value.enabled && half.value.proxy
            && half.value.defaultAction.Unknown?)
      && (error == Some(ErrTransparentModeNotEnabled) <==>
            mode.TransparentModeOn? && transparent.Some? && !transparent.value.enabled)
  {}

  // ---------------------------------------------------------------- answers

  /** Blocked is answered exactly when both copies of the mode are half mode, with an engine, and the decision is to
      block. */
  lemma BlockedIff(s: Setup, req: Request, d: Decision)
    ensures HasSource(Handle(s, req, d).0, "blocked") <==>
      s.mode.HalfMode? && s.configMode.HalfMode? && s.engine && d.action == Block
  {
    SourcesDiffer();
  }

  /** The packet is let through exactly when transparent mode handles it, or the router reads transparent mode for a
      request that reaches it and whose answer is not replaced. */
  lemma PassesIff(s: Setup, req: Request, d: Decision)
    ensures HasSource(Handle(s, req, d).0, "transparent_passthrough") <==>
      || (s.mode.TransparentModeOn? && s.handler)
      || (s.configMode.TransparentModeOn? && (Falls(s) || (HalfRuns(s, req, d) && !Replaces(s, d))))
  {
    SourcesDiffer();
  }

  /** The answer is replaced by a sandboxed one exactly when half mode reaches the router, the router answers and the
      modifier replaces. */
  lemma SandboxedIff(s: Setup, req: Request, d: Decision)
    ensures HasSource(Handle(s, req, d).0, "sandboxed") <==>
      HalfRuns(s, req, d) && Replaces(s, d) && (HasServices(s.full) || !Simulates(s, d.action))
  {
    SourcesDiffer();
  }

  /** A simulation is answered exactly when the router turns to the services, they are configured and the answer is
      not replaced. */
  lemma SimulatedIff(s: Setup, req: Request, d: Decision)
    ensures HasSource(Handle(s, req, d).0, "simulated") <==>
      && HasServices(s.full)
      && ((Falls(s) && Simulates(s, Simulate))
          || (HalfRuns(s, req, d) && Simulates(s, d.action) && !Replaces(s, d)))
  {
    SourcesDiffer();
  }

  /** Handling fails exactly when the router turns to services that are not configured, and panics exactly when half
      mode does not get as far as the router. There are no other answers. */
  lemma NoAnswerIff(s: Setup, req: Request, d: Decision)
    ensures Handle(s, req, d).0 == Failed <==>
      !HasServices(s.full)
      && ((Falls(s) && Simulates(s, Simulate)) || (HalfRuns(s, req, d) && Simulates(s, d.action)))
    ensures Handle(s, req, d).0 == Recovered <==> s.mode.HalfMode? && !HalfRuns(s, req, d)
    ensures Handle(s, req, d).0.Answer? ==>
      Handle(s, req, d).0.source in ["real", "blocked", "transparent_passthrough", "sandboxed", "simulated"]
  {}

  /** In half mode the router refuses a request without a decision; in no other mode does it need one. */
  lemma NoDecisionIff(mode: Mode, full: Option<FullConfig>, req: Request)
    requires HasServices(full)
    ensures RouteByMode(mode, full, req, None) == Failed <==> mode.HalfMode?
  {}

  /** A protocol's own service: the address set for it, or else its older setting. */
  function OwnService(s: Services): map<string, (string, string)> {
    map["DNS" := (s.dnsAddress, s.dns), "HTTP" := (s.httpAddress, s.http), "HTTPS" := (s.httpsAddress, s.https),
        "SMTP" := (s.smtpAddress, s.smtp), "FTP" := (s.ftpAddress, s.ftp)]
  }

  /** A simulated answer comes from the service of the request's protocol; of HTTP's address, set or not, when it has
      none. */
  lemma SimulatedByOwnService(s: Setup, req: Request, d: Decision)
    requires HasSource(Handle(s, req, d).0, "simulated")
    ensures HasServices(s.full)
    ensures
      var (services, own) := (s.full.value.services.value, OwnService(s.full.value.services.value));
      Handle(s, req, d).0.service ==
        if req.protocol !in own then services.httpAddress
        else if own[req.protocol].0 != "" then own[req.protocol].0
        else own[req.protocol].1
  {
    SourcesDiffer();
  }

  // ---------------------------------------------------------------- counters

  predicate CountsForwarded(s: Setup, req: Request, d: Decision) {
    || (s.mode.TransparentModeOn? && s.handler)
    || (HalfRuns(s, req, d) && d.action == Forward && (HasServices(s.full) || !Simulates(s, Forward)))
  }

  predicate CountsBlocked(s: Setup, req: Request, d: Decision) {
    HalfRuns(s, req, d) && d.action == Block && (HasServices(s.full) || !Simulates(s, Block))
  }

  predicate CountsModified(s: Setup, req: Request, d: Decision) {
    HalfRuns(s, req, d) && d.action == Modify && d.modifier.Some?
  }

  predicate CountsSimulated(s: Setup, req: Request, d: Decision) {
    Falls(s) || (HalfRuns(s, req, d) && d.action == Simulate && (HasServices(s.full) || !Simulates(s, Simulate)))
  }

  function One(b: bool): int {
    if b then 1 else 0
  }

  lemma CountedIff(s: Setup, req: Request, d: Decision)
    ensures
      var cs := Handle(s, req, d).1;
      && cs in [[], [Errors], [Forwarded], [Blocked], [Modified], [Simulated], [Modified, Errors], [Simulated, Errors]]
      && (Forwarded in cs <==> CountsForwarded(s, req, d)) && (Blocked in cs <==> CountsBlocked(s, req, d))
      && (Modified in cs <==> CountsModified(s, req, d)) && (Simulated in cs <==> CountsSimulated(s, req, d))
      && (Errors in cs <==> !Handle(s, req, d).0.Answer?)
  {
    if s.mode.HalfMode? {
      HalfShape(s, req, d);
      HalfCounted(s, req, d);
    }
  }

  lemma HalfCounted(s: Setup, req: Request, d: Decision)
    requires s.mode.HalfMode?
    ensures
      var cs := Handle(s, req, d).1;
      && (Forwarded in cs <==> CountsForwarded(s, req, d)) && (Blocked in cs <==> CountsBlocked(s, req, d))
      && (Modified in cs <==> CountsModified(s, req, d)) && (Simulated in cs <==> CountsSimulated(s, req, d))
      && (Errors in cs <==> !Handle(s, req, d).0.Answer?)
  {
    var none: seq<Counter> := [];
    if Modifies(d) {
      assert [Modified] + [Errors] == [Modified, Errors] && [Modified] + none == [Modified];
    } else {
      assert none + [Errors] == [Errors] && none + ActionCounters(d.action) == ActionCounters(d.action);
    }
  }

  lemma ShortSums(stats: Stats, cs: seq<Counter>)
    requires ShortProgram(cs)
    ensures IncrementAll(stats, cs) ==
      Stats(stats.total, stats.forwarded + One(Forwarded in cs), stats.blocked + One(Blocked in cs),
            stats.modified + One(Modified in cs), stats.simulated + One(Simulated in cs),
            stats.errors + One(Errors in cs))
  {
    if |cs| == 1 {
      assert cs[1..] == [];
    } else if |cs| == 2 {
      assert cs[1..] == [cs[1]] && cs[1..][1..] == [];
    }
  }

  /** Every counter after one request: the total moves by one, and each of the others exactly in its own case. */
  lemma StatsAfter(s: Setup, req: Request, d: Decision, stats: Stats)
    ensures IncrementAll(Increment(stats, TotalRequests), Handle(s, req, d).1) ==
      Stats(stats.total + 1, stats.forwarded + One(CountsForwarded(s, req, d)),
            stats.blocked + One(CountsBlocked(s, req, d)), stats.modified + One(CountsModified(s, req, d)),
            stats.simulated + One(CountsSimulated(s, req, d)), stats.errors + One(!Handle(s, req, d).0.Answer?))
  {
    CountedIff(s, req, d);
    ShortSums(Increment(stats, TotalRequests), Handle(s, req, d).1);
  }

  /** In every setup that a run reaches the counters follow the answers: blocked counts blocked answers, forwarded
      those that pass and those forwarded to the destination, simulated all but failures, and errors the rest. */
  lemma CountersFollowAnswers(s: Setup, req: Request, d: Decision)
    requires Sound(s)
    ensures
      var outcome := Handle(s, req, d).0;
      && (CountsBlocked(s, req, d) <==> HasSource(outcome, "blocked"))
      && (CountsForwarded(s, req, d) <==>
            HasSource(outcome, "transparent_passthrough") || (HasSource(outcome, "real") && d.action == Forward))
      && (CountsModified(s, req, d) <==>
            HasSource(outcome, "sandboxed")
            || (HasSource(outcome, "real") && d.action == Modify && d.modifier.Some?))
      && (HasSource(outcome, "simulated") ==> CountsSimulated(s, req, d) || d.action.Unknown?)
      && (CountsSimulated(s, req, d) ==> HasSource(outcome, "simulated") || outcome == Failed)
  {
    SourcesDiffer();
    BlockedIff(s, req, d);
    PassesIff(s, req, d);
    SandboxedIff(s, req, d);
    SimulatedIff(s, req, d);
    RealIff(s, req, d);
    NoAnswerIff(s, req, d);
  }
}
