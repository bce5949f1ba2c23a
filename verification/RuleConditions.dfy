/** What the conditions of rules mean on requests, and what half mode decides with the rules it starts with. */
module RuleConditions {
  import opened Options
  import opened NetworkRequest
  import opened DecisionEngine
  import opened DecisionGuarantees

  // ---------------------------------------------------------------- text without case

  /** One character, or an ASCII letter and its other case, 32 apart. */
  predicate SameLetter(c: char, d: char) {
    || c == d
    || ('A' <= c <= 'Z' && d as int == c as int + 32)
    || ('A' <= d <= 'Z' && c as int == d as int + 32)
  }

  predicate SameText(a: string, b: string) {
    |a| == |b| && forall i :: 0 <= i < |a| ==> SameLetter(a[i], b[i])
  }

  predicate EndsInText(s: string, tail: string) {
    |tail| <= |s| && SameText(s[|s| - |tail|..], tail)
  }

  predicate TextAt(s: string, part: string, i: int) {
    0 <= i <= |s| - |part| && SameText(s[i..i + |part|], part)
  }

  predicate HoldsText(s: string, part: string) {
    exists i :: 0 <= i <= |s| && TextAt(s, part, i)
  }

  lemma LowerIff(a: string, b: string)
    ensures ToLower(a) == ToLower(b) <==> SameText(a, b)
  {
    if ToLower(a) == ToLower(b) {
      assert |a| == |b|;
      forall i | 0 <= i < |a| ensures SameLetter(a[i], b[i]) {
        assert ToLower(a)[i] == ToLower(b)[i];
      }
    }
  }

  lemma LowerSlice(s: string, i: nat, j: nat)
    requires i <= j <= |s|
    ensures ToLower(s)[i..j] == ToLower(s[i..j])
  {}

  lemma LowerSuffixIff(s: string, tail: string)
    ensures HasSuffix(ToLower(s), ToLower(tail)) <==> EndsInText(s, tail)
  {
    if |tail| <= |s| {
      var i := |s| - |tail|;
      LowerSlice(s, i, |s|);
      assert ToLower(s)[i..] == ToLower(s)[i..|s|] && s[i..] == s[i..|s|];
      LowerIff(s[i..], tail);
    }
  }

  lemma PrefixIff(s: string, part: string, i: nat)
    requires i <= |s|
    ensures HasPrefix(ToLower(s)[i..], ToLower(part)) <==> TextAt(s, part, i)
  {
    if i + |part| <= |s| {
      LowerSlice(s, i, i + |part|);
      assert ToLower(s)[i..][..|part|] == ToLower(s)[i..i + |part|];
      LowerIff(s[i..i + |part|], part);
    }
  }

  lemma LowerContainsIff(s: string, part: string)
    ensures Contains(ToLower(s), ToLower(part)) <==> HoldsText(s, part)
  {
    if Contains(ToLower(s), ToLower(part)) {
      var i :| 0 <= i <= |s| && HasPrefix(ToLower(s)[i..], ToLower(part));
      PrefixIff(s, part, i);
    }
    if HoldsText(s, part) {
      var i :| 0 <= i <= |s| && TextAt(s, part, i);
      PrefixIff(s, part, i);
    }
  }

  // ---------------------------------------------------------------- conditions

  /** A pattern `*.tail` covers every domain that ends in `tail`, with a dot before it or without. */
  predicate Covers(pattern: string, domain: string) {
    SameText(domain, pattern) || (|pattern| >= 2 && pattern[..2] == "*." && EndsInText(domain, pattern[2..]))
  }

  function Extension(extension: string): string {
    if extension != "" && extension[0] == '.' then extension else "." + extension
  }

  /** The first of the headers named Content-Type, in the order in which they are visited, has the text. */
  ghost predicate HasContentType(headers: seq<(string, string)>, contentType: string) {
    exists k :: 0 <= k < |headers| && SameText(headers[k].0, "content-type") && HoldsText(headers[k].1, contentType)
      && forall i :: 0 <= i < k ==> !SameText(headers[i].0, "content-type")
  }

  /** When a condition holds of a request. */
  ghost predicate Holds(regex: Regex, req: Request, cond: Condition) {
    match cond.kind
    case DomainWhitelist => exists p :: p in cond.domains && Covers(p, req.domain)
    case DomainBlacklist => exists p :: p in cond.domains && Covers(p, req.domain)
    case DomainPattern => cond.domainPattern != "" && regex(cond.domainPattern, req.domain) == Some(true)
    case ProtocolIs => SameText(req.protocol, cond.protocol)
    case FileExtension => exists e :: e in cond.fileExtensions && EndsInText(req.path, Extension(e))
    case ContentType => cond.contentType != "" && HasContentType(HeadersOf(req), cond.contentType)
    case MethodIs => SameText(req.method_, cond.method_)
    case UploadDetection =>
      (cond.method_ == "" || SameText(req.method_, cond.method_))
      && (cond.minSize <= 0 || req.contentLength >= cond.minSize)
    case Default => true
    case UnknownType(_) => false
  }

  lemma CoversIff(domain: string, pattern: string)
    ensures MatchesDomain(domain, pattern) <==> Covers(pattern, domain)
  {
    LowerIff(domain, pattern);
    if |pattern| >= 2 {
      LowerSlice(pattern, 0, 2);
      assert ToLower(pattern)[..2] == ToLower(pattern)[0..2];
      StarIsStar(pattern);
      LowerSlice(pattern, 2, |pattern|);
      assert ToLower(pattern)[2..] == ToLower(pattern)[2..|pattern|] && pattern[2..] == pattern[2..|pattern|];
      LowerSuffixIff(domain, pattern[2..]);
    }
  }

  lemma StarIsStar(pattern: string)
    requires |pattern| >= 2
    ensures HasPrefix(ToLower(pattern), "*.") <==> pattern[..2] == "*."
  {
    var p := ToLower(pattern);
    assert p[0] == LowerChar(pattern[0]) && p[1] == LowerChar(pattern[1]);
    assert p[..2] == "*." <==> p[0] == '*' && p[1] == '.';
    assert pattern[..2] == "*." <==> pattern[0] == '*' && pattern[1] == '.';
  }

  lemma ExtensionIff(path: string, extension: string)
    ensures MatchesExtension(path, extension) <==> EndsInText(path, Extension(extension))
  {
    var ext := ToLower(extension);
    assert HasPrefix(ext, ".") <==> extension != "" && extension[0] == '.' by {
      if extension != "" {
        assert ext[0] == LowerChar(extension[0]) && ext[..1] == [ext[0]];
      }
    }
    assert ToLower("." + extension) == "." + ext;
    LowerSuffixIff(path, Extension(extension));
  }

  lemma {:induction false} ContentTypeIff(headers: seq<(string, string)>, contentType: string)
    requires contentType != ""
    ensures MatchesContentType(headers, contentType) <==> HasContentType(headers, contentType)
  {
    if headers != [] {
      LowerIff(headers[0].0, "content-type");
      LowerContainsIff(headers[0].1, contentType);
      ContentTypeIff(headers[1..], contentType);
      if !SameText(headers[0].0, "content-type") {
        LaterHeaders(headers, contentType);
      }
    }
  }

  lemma LaterHeaders(headers: seq<(string, string)>, contentType: string)
    requires headers != [] && !SameText(headers[0].0, "content-type")
    ensures HasContentType(headers, contentType) <==> HasContentType(headers[1..], contentType)
  {
    if HasContentType(headers[1..], contentType) {
      var rest := headers[1..];
      var k :| 0 <= k < |rest| && SameText(rest[k].0, "content-type") && HoldsText(rest[k].1, contentType)
        && forall i :: 0 <= i < k ==> !SameText(rest[i].0, "content-type");
      assert headers[k + 1] == rest[k] && forall i :: 0 < i < k + 1 ==> headers[i] == rest[i - 1];
    }
    if HasContentType(headers, contentType) {
      var k :| 0 <= k < |headers| && SameText(headers[k].0, "content-type") && HoldsText(headers[k].1, contentType)
        && forall i :: 0 <= i < k ==> !SameText(headers[i].0, "content-type");
      assert headers[1..][k - 1] == headers[k];
    }
  }

  lemma DomainListIff(domain: string, domains: seq<string>)
    ensures (exists i :: 0 <= i < |domains| && MatchesDomain(domain, domains[i])) <==>
      exists p :: p in domains && Covers(p, domain)
  {
    if i :| 0 <= i < |domains| && MatchesDomain(domain, domains[i]) {
      CoversIff(domain, domains[i]);
      assert domains[i] in domains;
    }
    if p :| p in domains && Covers(p, domain) {
      CoversIff(domain, p);
    }
  }

  lemma ExtensionListIff(path: string, extensions: seq<string>)
    ensures (exists i :: 0 <= i < |extensions| && MatchesExtension(path, extensions[i])) <==>
      exists e :: e in extensions && EndsInText(path, Extension(e))
  {
    if i :| 0 <= i < |extensions| && MatchesExtension(path, extensions[i]) {
      ExtensionIff(path, extensions[i]);
      assert extensions[i] in extensions;
    }
    if e :| e in extensions && EndsInText(path, Extension(e)) {
      ExtensionIff(path, e);
    }
  }

  /** A rule applies exactly when it is enabled and has a condition that holds of the request. */
  lemma AppliesIff(regex: Regex, req: Request, rule: Rule)
    ensures Applies(regex, req, rule) <==>
      rule.enabled && rule.condition.Some? && Holds(regex, req, rule.condition.value)
  {
    if rule.condition.Some? {
      var cond := rule.condition.value;
      match cond.kind {
        case DomainWhitelist => DomainListIff(req.domain, cond.domains);
        case DomainBlacklist => DomainListIff(req.domain, cond.domains);
        case ProtocolIs => LowerIff(req.protocol, cond.protocol);
        case FileExtension => ExtensionListIff(req.path, cond.fileExtensions);
        case ContentType => if cond.contentType != "" { ContentTypeIff(HeadersOf(req), cond.contentType); }
        case MethodIs => LowerIff(req.method_, cond.method_);
        case UploadDetection => LowerIff(req.method_, cond.method_);
        case _ =>
      }
    }
  }

  /** A list of one wildcard: the rule applies to every domain that ends in the tail, in any case, and to no other. */
  lemma WildcardRuleIff(regex: Regex, req: Request, rule: Rule, tail: string)
    requires rule.enabled && rule.condition.Some? && rule.condition.value.kind in {DomainWhitelist, DomainBlacklist}
    requires rule.condition.value.domains == ["*." + tail]
    ensures Applies(regex, req, rule) <==> EndsInText(req.domain, tail)
  {
    AppliesIff(regex, req, rule);
    WildcardIff(req.domain, tail);
    assert "*." + tail in rule.condition.value.domains;
  }

  lemma WildcardIff(domain: string, tail: string)
    ensures Covers("*." + tail, domain) <==> EndsInText(domain, tail)
  {
    var pattern := "*." + tail;
    assert pattern[..2] == "*." && pattern[2..] == tail;
    if SameText(domain, pattern) {
      assert forall i :: 0 <= i < |tail| ==> pattern[i + 2] == tail[i];
    }
  }

  // ---------------------------------------------------------------- decisions

  /** Without a cached decision: the first rule that applies decides, with its action and modifier, or the default
      action when none does. The decision names the rule. */
  lemma {:induction false} DecisionIsFirst(
    regex: Regex, rules: seq<Rule>, defaultAction: Action, cache: Cache, req: Request, k: nat)
    requires CacheKey(req) !in cache && k <= |rules|
    requires forall i :: 0 <= i < k ==> !Applies(regex, req, rules[i])
    requires k < |rules| ==> Applies(regex, req, rules[k])
    ensures
      var d := DecideWith(regex, rules, defaultAction, cache, req).1;
      if k < |rules|
      then d == Decision(rules[k].action, "Matched rule: " + rules[k].name, rules[k].name, rules[k].modifier)
      else d == Decision(defaultAction, "No matching rule, using default action", "default", None)
  {
    if k < |rules| {
      FirstToApply(regex, rules, req, k);
    } else {
      NoneApplies(regex, rules, req);
    }
  }

  lemma {:induction false} NoneApplies(regex: Regex, rules: seq<Rule>, req: Request)
    requires forall i :: 0 <= i < |rules| ==> !Applies(regex, req, rules[i])
    ensures Matched(regex, rules, req) == None
  {
    if rules != [] {
      NoneApplies(regex, rules[1..], req);
    }
  }

  // ---------------------------------------------------------------- the default rules

  predicate KnownC2(domain: string) {
    EndsInText(domain, "malware-c2.com") || EndsInText(domain, "evil-domain.net") || SameText(domain, "192.168.1.100")
  }

  predicate LegitimateCdn(domain: string) {
    EndsInText(domain, "cloudflare.com") || EndsInText(domain, "akamai.com") || EndsInText(domain, "fastly.com")
  }

  const EXECUTABLES := [".exe", ".dll", ".ps1", ".sh", ".bat", ".cmd"]

  ghost predicate Executable(path: string) {
    exists e :: e in EXECUTABLES && EndsInText(path, e)
  }

  predicate LargePost(req: Request) {
    SameText(req.method_, "POST") && req.contentLength >= 1048576
  }

  /** A rule on a list of three patterns. */
  lemma ThreePatterns(regex: Regex, req: Request, rule: Rule, a: string, b: string, c: string)
    requires rule.enabled && rule.condition.Some? && rule.condition.value.kind in {DomainWhitelist, DomainBlacklist}
    requires rule.condition.value.domains == [a, b, c]
    ensures Applies(regex, req, rule) <==> Covers(a, req.domain) || Covers(b, req.domain) || Covers(c, req.domain)
  {
    AppliesIff(regex, req, rule);
    var domains := rule.condition.value.domains;
    assert domains[0] == a && domains[1] == b && domains[2] == c;
    assert forall p :: p in domains <==> p == a || p == b || p == c;
  }

  lemma AddressIsPlain(domain: string)
    ensures Covers("192.168.1.100", domain) <==> SameText(domain, "192.168.1.100")
  {
    assert "192.168.1.100"[..2] == "19";
    assert "19"[0] != "*."[0];
  }

  lemma BlocksKnownC2(regex: Regex, req: Request)
    ensures Applies(regex, req, BlockKnownC2()) <==> KnownC2(req.domain)
  {
    assert "*." + "malware-c2.com" == "*.malware-c2.com" && "*." + "evil-domain.net" == "*.evil-domain.net";
    ThreePatterns(regex, req, BlockKnownC2(), "*.malware-c2.com", "*.evil-domain.net", "192.168.1.100");
    WildcardIff(req.domain, "malware-c2.com");
    WildcardIff(req.domain, "evil-domain.net");
    AddressIsPlain(req.domain);
  }

  lemma AllowsCdns(regex: Regex, req: Request)
    ensures Applies(regex, req, AllowLegitimateCdns()) <==> LegitimateCdn(req.domain)
  {
    assert "*." + "cloudflare.com" == "*.cloudflare.com" && "*." + "akamai.com" == "*.akamai.com";
    assert "*." + "fastly.com" == "*.fastly.com";
    ThreePatterns(regex, req, AllowLegitimateCdns(), "*.cloudflare.com", "*.akamai.com", "*.fastly.com");
    WildcardIff(req.domain, "cloudflare.com");
    WildcardIff(req.domain, "akamai.com");
    WildcardIff(req.domain, "fastly.com");
  }

  lemma InterceptsExecutables(regex: Regex, req: Request)
    ensures Applies(regex, req, InterceptExecutables()) <==> Executable(req.path)
  {
    AppliesIff(regex, req, InterceptExecutables());
    assert InterceptExecutables().condition.value.fileExtensions == EXECUTABLES;
    forall e | e in EXECUTABLES ensures Extension(e) == e {
      assert e[0] == '.';
    }
  }

  lemma MonitorsUploads(regex: Regex, req: Request)
    ensures Applies(regex, req, MonitorDataExfiltration()) <==> LargePost(req)
  {
    AppliesIff(regex, req, MonitorDataExfiltration());
  }

  /** What half mode decides with the rules it starts with, for every request without a cached decision: it blocks the
      known C2 domains, forwards to the known CDNs, intercepts executables and large POSTs, and simulates the rest. */
  lemma DefaultDecisions(regex: Regex, defaultAction: Action, cache: Cache, req: Request)
    requires CacheKey(req) !in cache
    ensures
      var d := DecideWith(regex, DefaultRules(), defaultAction, cache, req).1;
      if KnownC2(req.domain) then d.action == Block && d.ruleName == "block_known_c2"
      else if LegitimateCdn(req.domain) then d.action == Forward && d.ruleName == "allow_legitimate_cdns"
      else if Executable(req.path) then
        d.action == Modify && d.modifier.Some? && d.modifier.value.kind == "sandbox_executable"
      else if LargePost(req) then d.action == Modify && d.modifier.Some? && d.modifier.value.kind == "content_logging"
      else d.action == Simulate && d.ruleName == "default_simulate"
  {
    BlocksKnownC2(regex, req);
    AllowsCdns(regex, req);
    InterceptsExecutables(regex, req);
    MonitorsUploads(regex, req);
    AppliesIff(regex, req, DefaultSimulate());
    var k :=
      if KnownC2(req.domain) then 0 else if LegitimateCdn(req.domain) then 1 else if Executable(req.path) then 2
      else if LargePost(req) then 3 else 4;
    DecisionIsFirst(regex, DefaultRules(), defaultAction, cache, req, k);
  }

  /** What is cached for a known C2 domain is a block. */
  ghost predicate CacheBlocks(cache: Cache) {
    forall req :: Plain(req) && KnownC2(req.domain) && CacheKey(req) in cache ==> cache[CacheKey(req)].action == Block
  }

  lemma DecideBlocks(regex: Regex, defaultAction: Action, cache: Cache, req: Request)
    requires CacheBlocks(cache) && Plain(req)
    ensures CacheBlocks(DecideWith(regex, DefaultRules(), defaultAction, cache, req).0)
    ensures KnownC2(req.domain) ==> DecideWith(regex, DefaultRules(), defaultAction, cache, req).1.action == Block
  {
    var (cache', d) := DecideWith(regex, DefaultRules(), defaultAction, cache, req);
    if CacheKey(req) !in cache {
      DefaultDecisions(regex, defaultAction, cache, req);
      forall other | Plain(other) && KnownC2(other.domain) && CacheKey(other) in cache'
        ensures cache'[CacheKey(other)].action == Block
      {
        if CacheKey(other) == CacheKey(req) {
          KeyIsInjective(other, req);
        }
      }
    }
  }

  /** In every run of requests without colons in protocol and domain, whatever the cache has learnt on the way, the
      default rules block each request to a known C2 domain. */
  lemma {:induction false} KnownC2IsBlocked(
    regex: Regex, defaultAction: Action, cache: Cache, reqs: seq<Request>, i: nat)
    requires CacheBlocks(cache) && (forall req :: req in reqs ==> Plain(req))
    requires i < |reqs| && KnownC2(reqs[i].domain)
    ensures
      var decisions := DecideAll(regex, DefaultRules(), defaultAction, cache, reqs);
      i < |decisions| && decisions[i].action == Block
    decreases i
  {
    DecideBlocks(regex, defaultAction, cache, reqs[0]);
    if i > 0 {
      KnownC2IsBlocked(regex, defaultAction, DecideWith(regex, DefaultRules(), defaultAction, cache, reqs[0]).0,
                       reqs[1..], i - 1);
    }
  }

  /** The wildcard asks for no dot: a domain that only ends in the same letters is blocked as well. */
  lemma WildcardNeedsNoDot(regex: Regex, defaultAction: Action, req: Request)
    requires req.domain == "notmalware-c2.com"
    ensures DecideWith(regex, DefaultRules(), defaultAction, map[], req).1.action == Block
  {
    assert req.domain == "not" + "malware-c2.com";
    assert req.domain[3..] == "malware-c2.com";
    DefaultDecisions(regex, defaultAction, map[], req);
  }
}
