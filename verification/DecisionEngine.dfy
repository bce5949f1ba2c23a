/** The rule engine of half mode: prioritised rules, first match wins, matched decisions are cached. */
module DecisionEngine {
  import opened Options
  import opened NetworkRequest

  datatype Action = Forward | Block | Modify | Simulate | Unknown(name: string)
  {
    predicate IsValid() {
      !Unknown?
    }
  }

  datatype Modifier = Modifier(
    kind: string, saveOriginal: bool, stripHeaders: seq<string>, injectHeaders: map<string, string>,
    logFullContent: bool, stripPII: bool)

  datatype ConditionType =
    | DomainWhitelist | DomainBlacklist | DomainPattern | ProtocolIs | FileExtension
    | ContentType | MethodIs | UploadDetection | Default | UnknownType(name: string)

  datatype Condition = Condition(
    kind: ConditionType, domains: seq<string>, domainPattern: string, protocol: string, method_: string,
    contentType: string, fileExtensions: seq<string>, minSize: int)

  datatype Rule = Rule(
    name: string, priority: int, enabled: bool, condition: Option<Condition>, action: Action,
    modifier: Option<Modifier>)

  datatype Decision = Decision(action: Action, reason: string, ruleName: string, modifier: Option<Modifier>)

  /** The regular expression library: whether the pattern matches, or nothing for an invalid pattern. */
  type Regex = (string, string) -> Option<bool>

  // ---------------------------------------------------------------- conditions

  predicate EqualFold(a: string, b: string) {
    ToLower(a) == ToLower(b)
  }

  predicate MatchesDomain(domain: string, pattern: string) {
    var (d, p) := (ToLower(domain), ToLower(pattern));
    d == p || (HasPrefix(p, "*.") && HasSuffix(d, p[2..]))
  }

  predicate MatchesExtension(path: string, extension: string) {
    var ext := ToLower(extension);
    HasSuffix(ToLower(path), if HasPrefix(ext, ".") then ext else "." + ext)
  }

  /** Only the first Content-Type header that the loop over the map visits is looked at. */
  predicate MatchesContentType(headers: seq<(string, string)>, contentType: string) {
    contentType != "" && headers != []
    && if EqualFold(headers[0].0, "content-type") then Contains(ToLower(headers[0].1), ToLower(contentType))
       else MatchesContentType(headers[1..], contentType)
  }

  predicate DetectsUpload(req: Request, cond: Condition) {
    && (cond.method_ != "" ==> EqualFold(req.method_, cond.method_))
    && (cond.minSize > 0 ==> req.contentLength >= cond.minSize)
  }

  /** Whether a condition holds, or nothing when evaluating it fails. */
  function EvaluateCondition(regex: Regex, req: Request, condition: Option<Condition>): Option<bool> {
    match condition
    case None => None
    case Some(cond) =>
      match cond.kind
      case DomainWhitelist => Some(exists i :: 0 <= i < |cond.domains| && MatchesDomain(req.domain, cond.domains[i]))
      case DomainBlacklist => Some(exists i :: 0 <= i < |cond.domains| && MatchesDomain(req.domain, cond.domains[i]))
      case DomainPattern => if cond.domainPattern == "" then Some(false) else regex(cond.domainPattern, req.domain)
      case ProtocolIs => Some(EqualFold(req.protocol, cond.protocol))
      case FileExtension =>
        Some(exists i :: 0 <= i < |cond.fileExtensions| && MatchesExtension(req.path, cond.fileExtensions[i]))
      case ContentType => Some(MatchesContentType(HeadersOf(req), cond.contentType))
      case MethodIs => Some(EqualFold(req.method_, cond.method_))
      case UploadDetection => Some(DetectsUpload(req, cond))
      case Default => Some(true)
      case UnknownType(_) => None
  }

  /** An enabled rule whose condition holds; a condition that fails to evaluate counts as not matching. */
  predicate Applies(regex: Regex, req: Request, rule: Rule) {
    rule.enabled && EvaluateCondition(regex, req, rule.condition) == Some(true)
  }

  // ---------------------------------------------------------------- decisions

  function DecisionOf(rule: Rule): Decision {
    Decision(rule.action, "Matched rule: " + rule.name, rule.name, rule.modifier)
  }

  function DefaultDecision(defaultAction: Action): Decision {
    Decision(defaultAction, "No matching rule, using default action", "default", None)
  }

  /** The first rule that applies. */
  function Matched(regex: Regex, rules: seq<Rule>, req: Request): Option<Rule> {
    if rules == [] then None
    else if Applies(regex, req, rules[0]) then Some(rules[0])
    else Matched(regex, rules[1..], req)
  }

  /** The decision without a cache. */
  function Evaluate(regex: Regex, rules: seq<Rule>, defaultAction: Action, req: Request): Decision {
    match Matched(regex, rules, req)
    case None => DefaultDecision(defaultAction)
    case Some(rule) => DecisionOf(rule)
  }

  function CacheKey(req: Request): string {
    req.protocol + ":" + req.domain + ":" + req.path
  }

  type Cache = map<string, Decision>

  /** The decision with a cache; only decisions of matched rules are stored. */
  function DecideWith(regex: Regex, rules: seq<Rule>, defaultAction: Action, cache: Cache, req: Request)
    : (Cache, Decision) {
    var key := CacheKey(req);
    if key in cache then (cache, cache[key]) else
      match Matched(regex, rules, req)
      case None => (cache, DefaultDecision(defaultAction))
      case Some(rule) => (cache[key := DecisionOf(rule)], DecisionOf(rule))
  }

  ghost predicate ByPriority(rules: seq<Rule>) {
    forall i, j :: 0 <= i < j < |rules| ==> rules[i].priority >= rules[j].priority
  }

  class DecisionEngine {
    var rules: seq<Rule>
    var ruleCache: Cache
    const defaultAction: Action
    const regex: Regex

    constructor (defaultAction: Action, regex: Regex)
      ensures rules == [] && ruleCache == map[] && this.defaultAction == defaultAction && this.regex == regex
    {
      rules := [];
      ruleCache := map[];
      this.defaultAction := defaultAction;
      this.regex := regex;
    }

    /** Refuses an invalid action; otherwise the rules are those before and the new one, by priority. */
    method AddRule(rule: Rule) returns (added: bool)
      modifies this`rules
      ensures added <==> rule.action.IsValid()
      ensures added ==> rules == Sorted(old(rules) + [rule])
      ensures added ==> ByPriority(rules) && multiset(rules) == multiset(old(rules)) + multiset{rule}
      ensures !added ==> rules == old(rules)
    {
      if !rule.action.IsValid() {
        return false;
      }
      rules := rules + [rule];
      SortRulesByPriority();
      return true;
    }

    /** Adds rules up to the first one with an invalid action, at which it stops with an error. */
    method AddRules(added: seq<Rule>) returns (ok: bool)
      requires ByPriority(rules)
      modifies this`rules
      ensures ok <==> forall r :: r in added ==> r.action.IsValid()
      ensures ByPriority(rules)
      ensures exists n ::
        (0 <= n <= |added| && ValidUpTo(added, n) && multiset(rules) == multiset(old(rules)) + multiset(added[..n]))
    {
      for i := 0 to |added|
        invariant ByPriority(rules) && (forall r :: r in added[..i] ==> r.action.IsValid())
        invariant multiset(rules) == multiset(old(rules)) + multiset(added[..i])
      {
        ok := AddRule(added[i]);
        if !ok {
          assert ValidUpTo(added, i) && added[i] in added;
          return;
        }
        assert added[..i + 1] == added[..i] + [added[i]];
      }
      assert added[..|added|] == added;
      assert ValidUpTo(added, |added|);
      return true;
    }

    /** Exchanges out-of-order pairs in place. */
    method SortRulesByPriority()
      modifies this`rules
      ensures rules == Sorted(old(rules))
      ensures ByPriority(rules) && multiset(rules) == multiset(old(rules))
    {
      SortedIsSorted(rules);
      for i := 0 to |rules|
        invariant |rules| == |old(rules)| && Exchanged(rules, i) == Sorted(old(rules))
      {
        for j := i + 1 to |rules|
          invariant |rules| == |old(rules)| && Exchanged(Pass(rules, i, j), i + 1) == Sorted(old(rules))
        {
          if rules[j].priority > rules[i].priority {
            rules := Swapped(rules, i, j);
          }
        }
      }
    }

    method Decide(req: Request) returns (decision: Decision)
      modifies this`ruleCache
      ensures (ruleCache, decision) == DecideWith(regex, rules, defaultAction, old(ruleCache), req)
    {
      var key := CacheKey(req);
      if key in ruleCache {
        return ruleCache[key];
      }
      for i := 0 to |rules|
        invariant ruleCache == old(ruleCache)
        invariant Matched(regex, rules, req) == Matched(regex, rules[i..], req)
      {
        if Applies(regex, req, rules[i]) {
          decision := DecisionOf(rules[i]);
          ruleCache := ruleCache[key := decision];
          return;
        }
      }
      decision := DefaultDecision(defaultAction);
    }

    method ClearCache()
      modifies this`ruleCache
      ensures ruleCache == map[]
    {
      ruleCache := map[];
    }
  }

  /** `n` is the index of the first rule with an invalid action, or the length when there is none. */
  ghost predicate ValidUpTo(rules: seq<Rule>, n: int)
    requires 0 <= n <= |rules|
  {
    (forall r :: r in rules[..n] ==> r.action.IsValid()) && (n < |rules| ==> !rules[n].action.IsValid())
  }

  ghost predicate SameElements(a: seq<Rule>, b: seq<Rule>) {
    multiset(a) == multiset(b)
  }

  /** The first `i` rules are in their final places. */
  ghost predicate Settled(rules: seq<Rule>, i: nat) {
    forall a, b :: 0 <= a < i && a < b < |rules| ==> rules[a].priority >= rules[b].priority
  }

  /** Rule `i` is not below any of those after it and before `j`. */
  ghost predicate TopUntil(rules: seq<Rule>, i: nat, j: nat)
    requires i < j <= |rules|
  {
    forall b :: i < b < j ==> rules[i].priority >= rules[b].priority
  }

  function Swapped(rules: seq<Rule>, i: nat, j: nat): (r: seq<Rule>)
    requires i < j < |rules|
    ensures |r| == |rules|
  {
    rules[i := rules[j]][j := rules[i]]
  }

  function Compared(rules: seq<Rule>, i: nat, j: nat): (r: seq<Rule>)
    requires i < j < |rules|
    ensures |r| == |rules|
  {
    if rules[j].priority > rules[i].priority then Swapped(rules, i, j) else rules
  }

  /** Brings a rule of the highest priority from `i` on to place `i`, exchanging from place `j` on. */
  function Pass(rules: seq<Rule>, i: nat, j: nat): (r: seq<Rule>)
    requires i < j <= |rules|
    ensures |r| == |rules|
    decreases |rules| - j
  {
    if j == |rules| then rules else Pass(Compared(rules, i, j), i, j + 1)
  }

  /** The exchange sort from place `i` on. */
  function Exchanged(rules: seq<Rule>, i: nat): (r: seq<Rule>)
    requires i <= |rules|
    ensures |r| == |rules|
    decreases |rules| - i
  {
    if i == |rules| then rules else Exchanged(Pass(rules, i, i + 1), i + 1)
  }

  function Sorted(rules: seq<Rule>): seq<Rule> {
    Exchanged(rules, 0)
  }

  lemma CompareSettles(rules: seq<Rule>, i: nat, j: nat)
    requires i < j < |rules| && Settled(rules, i) && TopUntil(rules, i, j)
    ensures SameElements(Compared(rules, i, j), rules)
    ensures Settled(Compared(rules, i, j), i) && TopUntil(Compared(rules, i, j), i, j + 1)
  {}

  lemma TopSettles(rules: seq<Rule>, i: nat)
    requires i < |rules| && Settled(rules, i) && TopUntil(rules, i, |rules|)
    ensures Settled(rules, i + 1)
  {}

  lemma {:induction false} PassSettles(rules: seq<Rule>, i: nat, j: nat)
    requires i < j <= |rules| && Settled(rules, i) && TopUntil(rules, i, j)
    ensures SameElements(Pass(rules, i, j), rules) && Settled(Pass(rules, i, j), i + 1)
    decreases |rules| - j
  {
    if j == |rules| {
      TopSettles(rules, i);
    } else {
      CompareSettles(rules, i, j);
      PassSettles(Compared(rules, i, j), i, j + 1);
    }
  }

  lemma {:induction false} ExchangeSettles(rules: seq<Rule>, i: nat)
    requires i <= |rules| && Settled(rules, i)
    ensures SameElements(Exchanged(rules, i), rules) && ByPriority(Exchanged(rules, i))
    decreases |rules| - i
  {
    if i < |rules| {
      PassSettles(rules, i, i + 1);
      ExchangeSettles(Pass(rules, i, i + 1), i + 1);
    }
  }

  lemma SortedIsSorted(rules: seq<Rule>)
    ensures ByPriority(Sorted(rules)) && multiset(Sorted(rules)) == multiset(rules)
  {
    ExchangeSettles(rules, 0);
  }
}
