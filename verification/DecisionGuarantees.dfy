/** What the rule engine's decisions mean, and when cached decisions equal fresh ones. */
module DecisionGuarantees {
  import opened Options
  import opened NetworkRequest
  import opened DecisionEngine

  // ---------------------------------------------------------------- priority

  /** With sorted rules the matched rule has the highest priority of all rules that apply, and none is
      matched exactly when none applies. */
  lemma {:induction false} MatchedIsHighest(regex: Regex, rules: seq<Rule>, req: Request)
    requires ByPriority(rules)
    ensures Matched(regex, rules, req).None? <==> forall r :: r in rules ==> !Applies(regex, req, r)
    ensures Matched(regex, rules, req).Some? ==>
      var m := Matched(regex, rules, req).value;
      m in rules && Applies(regex, req, m)
      && forall r :: r in rules && Applies(regex, req, r) ==> r.priority <= m.priority
  {
    if rules != [] {
      forall r | r in rules ensures r.priority <= rules[0].priority && (r == rules[0] || r in rules[1..]) {
        var i :| 0 <= i < |rules| && rules[i] == r;
        if i > 0 { assert rules[1..][i - 1] == r; }
      }
      assert rules[0] in rules;
      MatchedIsHighest(regex, rules[1..], req);
    }
  }

  // ---------------------------------------------------------------- the cache key

  /** No colon in the protocol or the domain; the path is free. */
  predicate Plain(req: Request) {
    ':' !in req.protocol && ':' !in req.domain
  }

  predicate SameKeyFields(a: Request, b: Request) {
    a.protocol == b.protocol && a.domain == b.domain && a.path == b.path
  }

  lemma SplitAtColon(a: string, s: string, b: string, t: string)
    requires ':' !in a && ':' !in b && a + ":" + s == b + ":" + t
    ensures a == b && s == t
  {
    var (x, y) := (a + ":" + s, b + ":" + t);
    assert x[|a|] == ':' && forall k :: 0 <= k < |a| ==> x[k] == a[k] && x[k] != ':';
    assert y[|b|] == ':' && forall k :: 0 <= k < |b| ==> y[k] == b[k] && y[k] != ':';
    assert |a| == |b|;
    assert a == x[..|a|] && b == y[..|b|];
    assert s == x[|a| + 1..] && t == y[|b| + 1..];
  }

  /** The key tells plain requests apart by exactly the fields it is made of. */
  lemma KeyIsInjective(a: Request, b: Request)
    requires Plain(a) && Plain(b)
    ensures CacheKey(a) == CacheKey(b) <==> SameKeyFields(a, b)
  {
    if CacheKey(a) == CacheKey(b) {
      var (s, t) := (a.domain + ":" + a.path, b.domain + ":" + b.path);
      assert CacheKey(a) == a.protocol + ":" + s && CacheKey(b) == b.protocol + ":" + t;
      SplitAtColon(a.protocol, s, b.protocol, t);
      SplitAtColon(a.domain, a.path, b.domain, b.path);
    }
  }

  /** Conditions that look at nothing but protocol, domain and path. */
  predicate ReadsKeyOnly(condition: Option<Condition>) {
    condition.Some? ==>
      match condition.value.kind
      case ContentType => condition.value.contentType == ""
      case MethodIs => false
      case UploadDetection => condition.value.method_ == "" && condition.value.minSize <= 0
      case _ => true
  }

  predicate RulesReadKeyOnly(rules: seq<Rule>) {
    forall r :: r in rules && r.enabled ==> ReadsKeyOnly(r.condition)
  }

  lemma {:induction false} SameFieldsSameMatch(regex: Regex, rules: seq<Rule>, a: Request, b: Request)
    requires RulesReadKeyOnly(rules) && SameKeyFields(a, b)
    ensures Matched(regex, rules, a) == Matched(regex, rules, b)
  {
    if rules != [] {
      assert rules[0] in rules;
      assert Applies(regex, a, rules[0]) <==> Applies(regex, b, rules[0]);
      SameFieldsSameMatch(regex, rules[1..], a, b);
    }
  }

  // ---------------------------------------------------------------- runs

  /** The decisions for a sequence of requests, starting from a given cache. */
  function DecideAll(regex: Regex, rules: seq<Rule>, defaultAction: Action, cache: Cache, reqs: seq<Request>)
    : seq<Decision>
    decreases |reqs|
  {
    if reqs == [] then [] else
      var (cache', decision) := DecideWith(regex, rules, defaultAction, cache, reqs[0]);
      [decision] + DecideAll(regex, rules, defaultAction, cache', reqs[1..])
  }

  function EvaluateAll(regex: Regex, rules: seq<Rule>, defaultAction: Action, reqs: seq<Request>): seq<Decision> {
    if reqs == [] then []
    else [Evaluate(regex, rules, defaultAction, reqs[0])] + EvaluateAll(regex, rules, defaultAction, reqs[1..])
  }

  /** Every cached decision is what the rules decide now, for each good request that would get it. */
  ghost predicate CacheIsFresh(regex: Regex, rules: seq<Rule>, defaultAction: Action, cache: Cache,
      good: Request -> bool) {
    forall req :: good(req) && CacheKey(req) in cache ==>
      cache[CacheKey(req)] == Evaluate(regex, rules, defaultAction, req)
  }

  /** Requests with one key that is not cached are decided alike, once any of them matches a rule. */
  ghost predicate NewKeysDecide(regex: Regex, rules: seq<Rule>, defaultAction: Action, cache: Cache,
      good: Request -> bool) {
    forall a, b :: (good(a) && good(b) && CacheKey(a) == CacheKey(b) && CacheKey(a) !in cache
                    && Matched(regex, rules, a).Some?) ==>
      Evaluate(regex, rules, defaultAction, a) == Evaluate(regex, rules, defaultAction, b)
  }

  ghost predicate Agrees(regex: Regex, rules: seq<Rule>, defaultAction: Action, cache: Cache, good: Request -> bool) {
    forall reqs :: (forall req :: req in reqs ==> good(req)) ==>
      DecideAll(regex, rules, defaultAction, cache, reqs) == EvaluateAll(regex, rules, defaultAction, reqs)
  }

  lemma OneStepStaysFresh(regex: Regex, rules: seq<Rule>, defaultAction: Action, cache: Cache, req: Request,
      good: Request -> bool)
    requires CacheIsFresh(regex, rules, defaultAction, cache, good)
    requires NewKeysDecide(regex, rules, defaultAction, cache, good) && good(req)
    ensures DecideWith(regex, rules, defaultAction, cache, req).1 == Evaluate(regex, rules, defaultAction, req)
    ensures CacheIsFresh(regex, rules, defaultAction, DecideWith(regex, rules, defaultAction, cache, req).0, good)
    ensures NewKeysDecide(regex, rules, defaultAction, DecideWith(regex, rules, defaultAction, cache, req).0, good)
  {}

  lemma {:induction false} StaysFresh(regex: Regex, rules: seq<Rule>, defaultAction: Action, cache: Cache,
      reqs: seq<Request>, good: Request -> bool)
    requires CacheIsFresh(regex, rules, defaultAction, cache, good)
    requires NewKeysDecide(regex, rules, defaultAction, cache, good) && forall req :: req in reqs ==> good(req)
    ensures DecideAll(regex, rules, defaultAction, cache, reqs) == EvaluateAll(regex, rules, defaultAction, reqs)
    decreases |reqs|
  {
    if reqs != [] {
      assert reqs[0] in reqs;
      OneStepStaysFresh(regex, rules, defaultAction, cache, reqs[0], good);
      StaysFresh(regex, rules, defaultAction, DecideWith(regex, rules, defaultAction, cache, reqs[0]).0, reqs[1..],
        good);
    }
  }

  lemma OneRequest(regex: Regex, rules: seq<Rule>, defaultAction: Action, cache: Cache, a: Request)
    ensures DecideAll(regex, rules, defaultAction, cache, [a]) == [DecideWith(regex, rules, defaultAction, cache, a).1]
    ensures EvaluateAll(regex, rules, defaultAction, [a]) == [Evaluate(regex, rules, defaultAction, a)]
  {
    assert [a][1..] == [];
  }

  /** The second of two requests with a new key gets the first one's decision. */
  lemma SecondIsStale(regex: Regex, rules: seq<Rule>, defaultAction: Action, cache: Cache, a: Request, b: Request)
    requires CacheKey(a) == CacheKey(b) && CacheKey(a) !in cache && Matched(regex, rules, a).Some?
    requires Evaluate(regex, rules, defaultAction, a) != Evaluate(regex, rules, defaultAction, b)
    ensures DecideAll(regex, rules, defaultAction, cache, [a, b]) != EvaluateAll(regex, rules, defaultAction, [a, b])
  {
    assert [a, b][1..] == [b];
    OneRequest(regex, rules, defaultAction, DecideWith(regex, rules, defaultAction, cache, a).0, b);
    assert DecideAll(regex, rules, defaultAction, cache, [a, b])[1] == Evaluate(regex, rules, defaultAction, a);
    assert EvaluateAll(regex, rules, defaultAction, [a, b])[1] == Evaluate(regex, rules, defaultAction, b);
  }

  lemma AgreementIsFresh(regex: Regex, rules: seq<Rule>, defaultAction: Action, cache: Cache, good: Request -> bool)
    requires Agrees(regex, rules, defaultAction, cache, good)
    ensures CacheIsFresh(regex, rules, defaultAction, cache, good)
  {
    forall a | good(a) && CacheKey(a) in cache
      ensures cache[CacheKey(a)] == Evaluate(regex, rules, defaultAction, a)
    {
      OneRequest(regex, rules, defaultAction, cache, a);
      assert forall req :: req in [a] ==> good(req);
      assert DecideAll(regex, rules, defaultAction, cache, [a])[0] == EvaluateAll(regex, rules, defaultAction, [a])[0];
    }
  }

  lemma AgreementDecides(regex: Regex, rules: seq<Rule>, defaultAction: Action, cache: Cache, good: Request -> bool)
    requires Agrees(regex, rules, defaultAction, cache, good)
    ensures NewKeysDecide(regex, rules, defaultAction, cache, good)
  {
    forall a, b | good(a) && good(b) && CacheKey(a) == CacheKey(b) && CacheKey(a) !in cache
      && Matched(regex, rules, a).Some?
      ensures Evaluate(regex, rules, defaultAction, a) == Evaluate(regex, rules, defaultAction, b)
    {
      assert forall req :: req in [a, b] ==> good(req);
      if Evaluate(regex, rules, defaultAction, a) != Evaluate(regex, rules, defaultAction, b) {
        SecondIsStale(regex, rules, defaultAction, cache, a, b);
      }
    }
  }

  /** For any rules and any cache, wherever it came from: decisions agree with fresh ones on every sequence of
      good requests if and only if the cache is fresh and requests with one new key are decided alike. */
  lemma AgreesIff(regex: Regex, rules: seq<Rule>, defaultAction: Action, cache: Cache, good: Request -> bool)
    ensures Agrees(regex, rules, defaultAction, cache, good) <==>
      CacheIsFresh(regex, rules, defaultAction, cache, good) && NewKeysDecide(regex, rules, defaultAction, cache, good)
  {
    if Agrees(regex, rules, defaultAction, cache, good) {
      AgreementIsFresh(regex, rules, defaultAction, cache, good);
      AgreementDecides(regex, rules, defaultAction, cache, good);
    } else if CacheIsFresh(regex, rules, defaultAction, cache, good)
      && NewKeysDecide(regex, rules, defaultAction, cache, good) {
      forall reqs | forall req :: req in reqs ==> good(req)
        ensures DecideAll(regex, rules, defaultAction, cache, reqs) == EvaluateAll(regex, rules, defaultAction, reqs)
      {
        StaysFresh(regex, rules, defaultAction, cache, reqs, good);
      }
    }
  }

  /** From a cleared cache, with unchanged rules: if and only if requests with one key are decided alike. */
  lemma CacheAgreesIff(regex: Regex, rules: seq<Rule>, defaultAction: Action, good: Request -> bool)
    ensures Agrees(regex, rules, defaultAction, map[], good)
      <==> NewKeysDecide(regex, rules, defaultAction, map[], good)
  {
    AgreesIff(regex, rules, defaultAction, map[], good);
  }

  lemma KeyReadersDecide(regex: Regex, rules: seq<Rule>, defaultAction: Action, cache: Cache)
    requires RulesReadKeyOnly(rules)
    ensures NewKeysDecide(regex, rules, defaultAction, cache, Plain)
  {
    forall a, b | Plain(a) && Plain(b) && CacheKey(a) == CacheKey(b)
      ensures Evaluate(regex, rules, defaultAction, a) == Evaluate(regex, rules, defaultAction, b)
    {
      KeyIsInjective(a, b);
      SameFieldsSameMatch(regex, rules, a, b);
    }
  }

  /** A guard that can be read off the rules and the requests: no enabled condition looks beyond protocol,
      domain and path, and no protocol or domain contains a colon. */
  lemma CacheRefinesFresh(regex: Regex, rules: seq<Rule>, defaultAction: Action, reqs: seq<Request>)
    requires RulesReadKeyOnly(rules) && forall req :: req in reqs ==> Plain(req)
    ensures DecideAll(regex, rules, defaultAction, map[], reqs) == EvaluateAll(regex, rules, defaultAction, reqs)
  {
    KeyReadersDecide(regex, rules, defaultAction, map[]);
    StaysFresh(regex, rules, defaultAction, map[], reqs, Plain);
  }

  // ---------------------------------------------------------------- when it does not

  function OfKind(kind: ConditionType): Condition {
    Condition(kind, [], "", "", "", "", [], 0)
  }

  function BlockKnownC2(): Rule {
    Rule("block_known_c2", 100, true,
         Some(OfKind(DomainBlacklist).(domains := ["*.malware-c2.com", "*.evil-domain.net", "192.168.1.100"])),
         Block, None)
  }

  function AllowLegitimateCdns(): Rule {
    Rule("allow_legitimate_cdns", 90, true,
         Some(OfKind(DomainWhitelist).(domains := ["*.cloudflare.com", "*.akamai.com", "*.fastly.com"])), Forward, None)
  }

  function InterceptExecutables(): Rule {
    Rule("intercept_executables", 80, true,
         Some(OfKind(FileExtension).(fileExtensions := [".exe", ".dll", ".ps1", ".sh", ".bat", ".cmd"])), Modify,
         Some(Modifier("sandbox_executable", true, [], map[], false, false)))
  }

  function MonitorDataExfiltration(): Rule {
    Rule("monitor_data_exfiltration", 70, true,
         Some(OfKind(UploadDetection).(method_ := "POST", minSize := 1024 * 1024)), Modify,
         Some(Modifier("content_logging", false, [], map[], true, true)))
  }

  function DefaultSimulate(): Rule {
    Rule("default_simulate", 1, true, Some(OfKind(Default)), Simulate, None)
  }

  /** The rules that half mode starts with. */
  function DefaultRules(): seq<Rule> {
    [BlockKnownC2(), AllowLegitimateCdns(), InterceptExecutables(), MonitorDataExfiltration(), DefaultSimulate()]
  }

  lemma {:induction false} FirstToApply(regex: Regex, rules: seq<Rule>, req: Request, k: nat)
    requires k < |rules| && Applies(regex, req, rules[k]) && forall i :: 0 <= i < k ==> !Applies(regex, req, rules[i])
    ensures Matched(regex, rules, req) == Some(rules[k])
  {
    if k > 0 {
      FirstToApply(regex, rules[1..], req, k - 1);
    }
  }

  lemma DomainRuleMisses(regex: Regex, req: Request, rule: Rule)
    requires req.domain == "" && rule.condition.Some?
    requires rule.condition.value.kind == DomainBlacklist || rule.condition.value.kind == DomainWhitelist
    requires forall p :: p in rule.condition.value.domains ==> |p| > 2
    ensures !Applies(regex, req, rule)
  {}

  lemma ExtensionRuleMisses(regex: Regex, req: Request, rule: Rule)
    requires req.path == "" && rule.condition.Some? && rule.condition.value.kind == FileExtension
    ensures !Applies(regex, req, rule)
  {}

  lemma FirstMisses(regex: Regex, req: Request)
    requires req.domain == ""
    ensures !Applies(regex, req, BlockKnownC2())
  {
    var cond := BlockKnownC2().condition.value;
    assert cond.domains == ["*.malware-c2.com", "*.evil-domain.net", "192.168.1.100"];
    DomainRuleMisses(regex, req, BlockKnownC2());
  }

  lemma SecondMisses(regex: Regex, req: Request)
    requires req.domain == ""
    ensures !Applies(regex, req, AllowLegitimateCdns())
  {
    var cond := AllowLegitimateCdns().condition.value;
    assert cond.domains == ["*.cloudflare.com", "*.akamai.com", "*.fastly.com"];
    DomainRuleMisses(regex, req, AllowLegitimateCdns());
  }

  lemma FirstThreeMiss(regex: Regex, req: Request)
    requires req.domain == "" && req.path == ""
    ensures !Applies(regex, req, BlockKnownC2()) && !Applies(regex, req, AllowLegitimateCdns())
    ensures !Applies(regex, req, InterceptExecutables())
  {
    FirstMisses(regex, req);
    SecondMisses(regex, req);
    assert InterceptExecutables().condition.Some? && InterceptExecutables().condition.value.kind == FileExtension;
    ExtensionRuleMisses(regex, req, InterceptExecutables());
  }

  lemma UploadRule(regex: Regex, req: Request)
    ensures req.method_ == "POST" && req.contentLength >= 1024 * 1024 ==> Applies(regex, req, MonitorDataExfiltration())
    ensures |req.method_| == 3 ==> !Applies(regex, req, MonitorDataExfiltration())
  {
    assert |ToLower("POST")| == 4;
  }

  /** The default rules are not among those: a large POST is logged, and then a GET of the same URL gets the
      POST's decision although it would be simulated afresh. */
  lemma DefaultRulesGoStale(regex: Regex)
    ensures exists a, b ::
      Plain(a) && Plain(b) && SameKeyFields(a, b)
      && DecideAll(regex, DefaultRules(), Simulate, map[], [a, b])
        != EvaluateAll(regex, DefaultRules(), Simulate, [a, b])
  {
    var a := BLANK.(method_ := "POST", contentLength := 2 * 1024 * 1024);
    var b := BLANK.(method_ := "GET");
    FirstThreeMiss(regex, a);
    FirstThreeMiss(regex, b);
    UploadRule(regex, a);
    UploadRule(regex, b);
    FirstToApply(regex, DefaultRules(), a, 3);
    FirstToApply(regex, DefaultRules(), b, 4);
    SecondIsStale(regex, DefaultRules(), Simulate, map[], a, b);
    assert Plain(a) && Plain(b) && SameKeyFields(a, b);
  }
}
