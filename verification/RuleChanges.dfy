/** Adding a rule neither clears the decision cache nor keeps the order of the other rules: when cached and fresh
    decisions survive it. */
module RuleChanges {
  import opened Options
  import opened NetworkRequest
  import opened DecisionEngine
  import opened DecisionGuarantees

  // ---------------------------------------------------------------- one more rule

  /** The new rule changes no decision that a cached request got. */
  ghost predicate SparesCached(regex: Regex, rules: seq<Rule>, rules': seq<Rule>, defaultAction: Action, cache: Cache) {
    forall req :: Plain(req) && CacheKey(req) in cache ==>
      Evaluate(regex, rules', defaultAction, req) == Evaluate(regex, rules, defaultAction, req)
  }

  /** Every entry is the decision some good request got from these rules. */
  ghost predicate Current(regex: Regex, rules: seq<Rule>, cache: Cache, good: Request -> bool) {
    forall key :: key in cache ==> exists req ::
      good(req) && CacheKey(req) == key && Matched(regex, rules, req).Some?
      && cache[key] == DecisionOf(Matched(regex, rules, req).value)
  }

  lemma CurrentIsFresh(regex: Regex, rules: seq<Rule>, defaultAction: Action, cache: Cache)
    requires RulesReadKeyOnly(rules) && Current(regex, rules, cache, Plain)
    ensures CacheIsFresh(regex, rules, defaultAction, cache, Plain)
  {
    forall req | Plain(req) && CacheKey(req) in cache
      ensures cache[CacheKey(req)] == Evaluate(regex, rules, defaultAction, req)
    {
      var r :| Plain(r) && CacheKey(r) == CacheKey(req) && Matched(regex, rules, r).Some?
        && cache[CacheKey(req)] == DecisionOf(Matched(regex, rules, r).value);
      KeyIsInjective(r, req);
      SameFieldsSameMatch(regex, rules, r, req);
    }
  }

  /** A cache filled under the old rules stays in agreement after a rule is added, on every sequence of requests,
      if and only if the new list decides the cached requests as the old one did. Conditions are those that read
      the key only, so that the cache was in agreement before. */
  lemma AddedRuleAgreesIff(regex: Regex, rules: seq<Rule>, rule: Rule, defaultAction: Action, cache: Cache)
    requires RulesReadKeyOnly(rules + [rule]) && Current(regex, rules, cache, Plain)
    ensures Agrees(regex, Sorted(rules + [rule]), defaultAction, cache, Plain) <==>
      SparesCached(regex, rules, Sorted(rules + [rule]), defaultAction, cache)
  {
    var rules' := Sorted(rules + [rule]);
    SameMembers(rules + [rule], rules');
    forall r | r in rules ensures r in rules + [rule] {}
    KeyReadersDecide(regex, rules', defaultAction, cache);
    CurrentIsFresh(regex, rules, defaultAction, cache);
    AgreesIff(regex, rules', defaultAction, cache, Plain);
  }

  lemma SameMembers(rules: seq<Rule>, rules': seq<Rule>)
    requires rules' == Sorted(rules)
    ensures forall r :: r in rules' <==> r in rules
  {
    SortedIsSorted(rules);
    forall r ensures r in rules' <==> r in rules {
      assert r in multiset(rules') <==> r in multiset(rules);
    }
  }

  /** No two different rules of one priority apply to the request. */
  ghost predicate NoTies(regex: Regex, rules: seq<Rule>, req: Request) {
    forall a, b :: (a in rules && b in rules && Applies(regex, req, a) && Applies(regex, req, b)
                    && a.priority == b.priority) ==> a == b
  }

  /** The new rule applies and ranks above the rule that matched so far, if any. */
  predicate Takes(regex: Regex, rules: seq<Rule>, rule: Rule, req: Request) {
    Applies(regex, req, rule) && (Matched(regex, rules, req).Some? ==>
      rule.priority > Matched(regex, rules, req).value.priority)
  }

  /** Without ties, what the new list matches: the new rule exactly when it applies and ranks above the old match. */
  lemma AddedRuleMatches(regex: Regex, rules: seq<Rule>, rule: Rule, req: Request)
    requires ByPriority(rules) && NoTies(regex, rules + [rule], req)
    ensures Matched(regex, Sorted(rules + [rule]), req) ==
      if Takes(regex, rules, rule, req) then Some(rule) else Matched(regex, rules, req)
  {
    var rules' := Sorted(rules + [rule]);
    SortedIsSorted(rules + [rule]);
    SameMembers(rules + [rule], rules');
    MatchedIsHighest(regex, rules, req);
    MatchedIsHighest(regex, rules', req);
    assert rule in rules';
    assert forall r :: r in rules ==> r in rules';
  }

  lemma UntiedDecision(regex: Regex, rules: seq<Rule>, rule: Rule, defaultAction: Action, req: Request)
    requires ByPriority(rules) && NoTies(regex, rules + [rule], req)
    ensures Evaluate(regex, Sorted(rules + [rule]), defaultAction, req) ==
      if Takes(regex, rules, rule, req) then DecisionOf(rule) else Evaluate(regex, rules, defaultAction, req)
  {
    AddedRuleMatches(regex, rules, rule, req);
  }

  ghost predicate NoCachedTies(regex: Regex, rules: seq<Rule>, cache: Cache) {
    forall req :: Plain(req) && CacheKey(req) in cache ==> NoTies(regex, rules, req)
  }

  /** Whatever cached request the new rule takes had the rule's decision before. */
  ghost predicate TakesNoOther(regex: Regex, rules: seq<Rule>, rule: Rule, defaultAction: Action, cache: Cache) {
    forall req :: Plain(req) && CacheKey(req) in cache && Takes(regex, rules, rule, req) ==>
      Evaluate(regex, rules, defaultAction, req) == DecisionOf(rule)
  }

  lemma UntiedSparesIff(regex: Regex, rules: seq<Rule>, rule: Rule, defaultAction: Action, cache: Cache)
    requires ByPriority(rules) && NoCachedTies(regex, rules + [rule], cache)
    ensures SparesCached(regex, rules, Sorted(rules + [rule]), defaultAction, cache) <==>
      TakesNoOther(regex, rules, rule, defaultAction, cache)
  {
    var rules' := Sorted(rules + [rule]);
    forall req | Plain(req) && CacheKey(req) in cache
      ensures Evaluate(regex, rules', defaultAction, req) ==
        if Takes(regex, rules, rule, req) then DecisionOf(rule) else Evaluate(regex, rules, defaultAction, req)
    {
      UntiedDecision(regex, rules, rule, defaultAction, req);
    }
  }

  /** When no cached request has ties, the cache stays in agreement after the addition if and only if every cached
      request that the new rule takes had that rule's decision already. */
  lemma AddedRuleKeepsCacheIff(regex: Regex, rules: seq<Rule>, rule: Rule, defaultAction: Action, cache: Cache)
    requires RulesReadKeyOnly(rules + [rule]) && Current(regex, rules, cache, Plain) && ByPriority(rules)
    requires NoCachedTies(regex, rules + [rule], cache)
    ensures Agrees(regex, Sorted(rules + [rule]), defaultAction, cache, Plain) <==>
      TakesNoOther(regex, rules, rule, defaultAction, cache)
  {
    UntiedSparesIff(regex, rules, rule, defaultAction, cache);
    AddedRuleAgreesIff(regex, rules, rule, defaultAction, cache);
  }

  // ---------------------------------------------------------------- both failures happen

  function Always(name: string, priority: int, action: Action): Rule {
    Rule(name, priority, true, Some(OfKind(Default)), action, None)
  }

  function Never(priority: int): Rule {
    Rule("never", priority, false, Some(OfKind(Default)), Block, None)
  }

  /** Adding a rule does not clear the cache: a request that was simulated stays simulated although the new rule
      would block it. */
  lemma AddedRuleGoesStale(regex: Regex)
    ensures exists rules, rule, cache ::
      ByPriority(rules) && RulesReadKeyOnly(rules + [rule]) && Current(regex, rules, cache, Plain)
      && !Agrees(regex, Sorted(rules + [rule]), Simulate, cache, Plain)
  {
    var rules, rule := [Always("simulate", 1, Simulate)], Always("block", 2, Block);
    var cache: Cache := map[CacheKey(BLANK) := DecisionOf(rules[0])];
    assert Matched(regex, rules, BLANK) == Some(rules[0]);
    assert Plain(BLANK);
    assert Current(regex, rules, cache, Plain);
    assert forall r :: r in rules + [rule] ==> r == rules[0] || r == rule;
    AddedRuleMatches(regex, rules, rule, BLANK);
    AddedRuleAgreesIff(regex, rules, rule, Simulate, cache);
    assert Evaluate(regex, Sorted(rules + [rule]), Simulate, BLANK).action == Block;
    assert Evaluate(regex, rules, Simulate, BLANK).action == Simulate;
  }

  /** The exchange sort puts a third rule first and turns the two of equal priority around. */
  lemma SortTurnsTies(a: Rule, b: Rule, c: Rule)
    requires a.priority == b.priority < c.priority
    ensures Sorted([a, b, c]) == [c, b, a]
  {
    assert Swapped([a, b, c], 0, 2) == [c, b, a];
    assert Pass([a, b, c], 0, 1) == Pass([a, b, c], 0, 2) == Pass([c, b, a], 0, 3) == [c, b, a];
    assert Pass([c, b, a], 1, 2) == Pass([c, b, a], 1, 3) == [c, b, a];
    assert Pass([c, b, a], 2, 3) == [c, b, a];
    assert Exchanged([c, b, a], 1) == Exchanged([c, b, a], 2) == Exchanged([c, b, a], 3) == [c, b, a];
  }

  /** With ties even a rule that applies to nothing changes a fresh decision: adding it turns the order of two
      rules of one priority around. */
  lemma UnrelatedRuleTurnsDecision(regex: Regex)
    ensures exists rules, rule, req ::
      ByPriority(rules) && !Applies(regex, req, rule)
      && Evaluate(regex, Sorted(rules + [rule]), Simulate, req) != Evaluate(regex, rules, Simulate, req)
  {
    var (a, b, c) := (Always("a", 5, Forward), Always("b", 5, Block), Never(9));
    SortTurnsTies(a, b, c);
    assert [a, b] + [c] == [a, b, c];
    assert Matched(regex, [a, b], BLANK) == Some(a);
    FirstToApply(regex, [c, b, a], BLANK, 1);
    assert DecisionOf(a).action != DecisionOf(b).action;
  }
}
