/** Package URLs: parsing, rendering, and when one undoes the other. */
module Purl {
  import opened Options
  import opened PercentEncoding

  datatype Package = Package(
    ecosystem: string, namespace: Option<string>, name: Option<string>, version: Option<string>,
    qualifiers: map<string, string>)

  datatype Error = NotPurl | MissingSeparator | Unsupported(kind: string)

  datatype ParseResult<T> = Ok(value: T) | Err(error: Error)

  const ECOSYSTEMS: map<string, string> :=
    map["pypi" := "pypi", "npm" := "npm", "gem" := "rubygems", "maven" := "maven", "packagist" := "packagist"]

  // ---------------------------------------------------------------- splitting

  /** What precedes the first `c`, or everything. */
  function Before(s: string, c: char): string {
    if s == [] || s[0] == c then [] else [s[0]] + Before(s[1..], c)
  }

  /** What follows the first `c`, or nothing. */
  function After(s: string, c: char): (r: string)
    ensures c in s ==> |r| < |s|
  {
    if s == [] then [] else if s[0] == c then s[1..] else After(s[1..], c)
  }

  function SplitAll(s: string, c: char): seq<string>
    decreases |s|
  {
    if c in s then [Before(s, c)] + SplitAll(After(s, c), c) else [s]
  }

  lemma {:induction false} SplitAt(a: string, c: char, b: string)
    requires c !in a
    ensures Before(a + [c] + b, c) == a && After(a + [c] + b, c) == b && Before(a, c) == a
    decreases |a|
  {
    var s := a + [c] + b;
    if a == [] {
      assert s[0] == c && s[1..] == b;
    } else {
      assert s[1..] == a[1..] + [c] + b;
      SplitAt(a[1..], c, b);
    }
  }

  // ---------------------------------------------------------------- parsing

  function WithQualifier(q: map<string, string>, pair: string): map<string, string> {
    if '=' in pair then q[Unquote(Before(pair, '=')) := Unquote(After(pair, '='))] else q
  }

  function WithQualifiers(q: map<string, string>, pairs: seq<string>): map<string, string>
    decreases |pairs|
  {
    if pairs == [] then q else WithQualifiers(WithQualifier(q, pairs[0]), pairs[1..])
  }

  function QualifiersOf(s: string): map<string, string> {
    if s == "" then map[] else WithQualifiers(map[], SplitAll(s, '&'))
  }

  method ParseQualifiers(s: string) returns (q: map<string, string>)
    ensures q == QualifiersOf(s)
  {
    q := map[];
    if s != "" {
      var pairs := SplitAll(s, '&');
      for i := 0 to |pairs|
        invariant WithQualifiers(q, pairs[i..]) == QualifiersOf(s)
      {
        assert pairs[i..][1..] == pairs[i + 1..];
        if '=' in pairs[i] {
          var key, value := Before(pairs[i], '='), After(pairs[i], '=');
          q := q[Unquote(key) := Unquote(value)];
        }
      }
    }
  }

  /** For Maven the namespace becomes part of the name; an empty part counts as missing. */
  function Combined(namespace: Option<string>, name: string): Option<string> {
    if namespace.Some? && namespace.value != "" && name != "" then Some(namespace.value + ":" + name)
    else if name != "" then Some(name)
    else namespace
  }

  function PackageOf(ecosystem: string, namespace: Option<string>, name: string, version: Option<string>,
                     qualifiers: map<string, string>): Package {
    if ecosystem == "maven" then Package(ecosystem, None, Combined(namespace, name), version, qualifiers)
    else Package(ecosystem, namespace, Some(name), version, qualifiers)
  }

  /** The text after the type. */
  function ParsedRest(ecosystem: string, rest: string): Package {
    var qualifiers := if '?' in rest then QualifiersOf(After(rest, '?')) else map[];
    var rest := Before(rest, '?');
    var version := if '@' in rest then Some(Unquote(After(rest, '@'))) else None;
    var path := Before(rest, '@');
    if '/' in path
    then PackageOf(ecosystem, Some(Unquote(Before(path, '/'))), Unquote(After(path, '/')), version, qualifiers)
    else PackageOf(ecosystem, None, Unquote(path), version, qualifiers)
  }

  predicate IsPurl(s: string) {
    |s| >= 4 && s[..4] == "pkg:"
  }

  function Parsed(purl: string): ParseResult<Package> {
    if !IsPurl(purl) then Err(NotPurl)
    else if '/' !in purl[4..] then Err(MissingSeparator)
    else
      var kind := Before(purl[4..], '/');
      if kind !in ECOSYSTEMS then Err(Unsupported(kind))
      else Ok(ParsedRest(ECOSYSTEMS[kind], After(purl[4..], '/')))
  }

  lemma {:induction false} Unsplit(s: string, c: char)
    requires c !in s
    ensures Before(s, c) == s
  {
    SplitAt(s, c, []);
  }

  method ParsePurl(purl: string) returns (result: ParseResult<Package>)
    ensures result == Parsed(purl)
  {
    if !IsPurl(purl) {
      return Err(NotPurl);
    }
    var part := purl[4..];
    if '/' !in part {
      return Err(MissingSeparator);
    }
    var kind, rest := Before(part, '/'), After(part, '/');
    if kind !in ECOSYSTEMS {
      return Err(Unsupported(kind));
    }
    var ecosystem := ECOSYSTEMS[kind];
    var package := ParseRest(ecosystem, rest);
    return Ok(package);
  }

  method ParseRest(ecosystem: string, text: string) returns (package: Package)
    ensures package == ParsedRest(ecosystem, text)
  {
    var rest := text;
    var namespace, version: Option<string>, qualifiers: map<string, string> := None, None, map[];
    Unsplit'(rest, '?');
    if '?' in rest {
      var text := After(rest, '?');
      rest := Before(rest, '?');
      qualifiers := ParseQualifiers(text);
    }
    var path, name := rest, "";
    Unsplit'(rest, '@');
    if '@' in rest {
      path, version := Before(rest, '@'), Some(Unquote(After(rest, '@')));
    }
    if '/' in path {
      namespace, name := Some(Unquote(Before(path, '/'))), Unquote(After(path, '/'));
    } else {
      name := Unquote(path);
    }
    var fullName := Some(name);
    if ecosystem == "maven" {
      if namespace.Some? && namespace.value != "" && name != "" {
        fullName := Some(namespace.value + ":" + name);
      } else if name == "" {
        fullName := namespace;
      }
      namespace := None;
    }
    package := Package(ecosystem, namespace, fullName, version, qualifiers);
  }

  lemma Unsplit'(s: string, c: char)
    ensures c !in s ==> Before(s, c) == s
  {
    if c !in s { Unsplit(s, c); }
  }

  lemma ParsedOfKind(kind: string, rest: string)
    requires '/' !in kind
    ensures Parsed("pkg:" + kind + "/" + rest) ==
      if kind in ECOSYSTEMS then Ok(ParsedRest(ECOSYSTEMS[kind], rest)) else Err(Unsupported(kind))
  {
    var purl := "pkg:" + kind + "/" + rest;
    assert purl[..4] == "pkg:" && purl[4..] == kind + ['/'] + rest;
    assert purl[4..][|kind|] == '/';
    SplitAt(kind, '/', rest);
  }

  /** The five types and their ecosystems; a purl of any other type is refused. */
  lemma EcosystemNames(kind: string, rest: string)
    requires '/' !in kind
    ensures
      var result := Parsed("pkg:" + kind + "/" + rest);
      && (kind in {"pypi", "npm", "maven", "packagist"} ==> result.Ok? && result.value.ecosystem == kind)
      && (kind == "gem" ==> result.Ok? && result.value.ecosystem == "rubygems")
      && (kind !in {"pypi", "npm", "gem", "maven", "packagist"} ==> result == Err(Unsupported(kind)))
  {
    ParsedOfKind(kind, rest);
  }

  // ---------------------------------------------------------------- the ecosystem alone

  /** Looks at the type without parsing the rest. */
  function EcosystemFromPurl(purl: string): Option<string> {
    if !IsPurl(purl) then None
    else
      var kind := SplitAll(purl[4..], '/')[0];
      if kind in ECOSYSTEMS then Some(ECOSYSTEMS[kind]) else None
  }

  /** A purl is accepted exactly when it has a separator and an ecosystem, and then the ecosystems agree. */
  lemma EcosystemsAgree(purl: string)
    ensures Parsed(purl).Ok? <==> EcosystemFromPurl(purl).Some? && '/' in purl[4..]
    ensures Parsed(purl).Ok? ==> EcosystemFromPurl(purl) == Some(Parsed(purl).value.ecosystem)
  {
    if IsPurl(purl) {
      Unsplit'(purl[4..], '/');
      assert SplitAll(purl[4..], '/')[0] == Before(purl[4..], '/');
    }
  }

  // ---------------------------------------------------------------- rendering

  /** What a purl is about; `kind` is the type as it is written. */
  datatype Component = Component(
    kind: string, namespace: seq<string>, name: string, version: Option<string>, qualifiers: map<string, string>)

  function JoinPath(parts: seq<string>): string
    requires parts != []
  {
    if |parts| == 1 then parts[0] else parts[0] + "/" + JoinPath(parts[1..])
  }

  function EscapePath(keep: Keep, parts: seq<string>): string
    requires parts != []
  {
    if |parts| == 1 then Escape(keep, parts[0]) else Escape(keep, parts[0]) + "/" + EscapePath(keep, parts[1..])
  }

  function RenderQualifier(keep: Keep, key: string, value: string): string {
    Escape(keep, key) + "=" + Escape(keep, value)
  }

  function RenderQualifiers(keep: Keep, q: map<string, string>, order: seq<string>): string
    requires order != [] && forall k :: k in order ==> k in q
  {
    RenderQualifier(keep, order[0], q[order[0]])
    + (if |order| == 1 then "" else "&" + RenderQualifiers(keep, q, order[1..]))
  }

  /** Each key once. */
  ghost predicate Orders(order: seq<string>, q: map<string, string>) {
    && (forall k :: k in order <==> k in q)
    && forall i, j :: 0 <= i < j < |order| ==> order[i] != order[j]
  }

  ghost function RenderPathAndVersion(keep: Keep, c: Component): string {
    EscapePath(keep, c.namespace + [c.name]) + (if c.version.Some? then "@" + Escape(keep, c.version.value) else "")
  }

  ghost function RenderRest(keep: Keep, c: Component, order: seq<string>): string
    requires Orders(order, c.qualifiers)
  {
    RenderPathAndVersion(keep, c) + (if order != [] then "?" + RenderQualifiers(keep, c.qualifiers, order) else "")
  }

  /** By the rules of the purl specification; qualifiers in any order. */
  ghost function Render(keep: Keep, c: Component, order: seq<string>): string
    requires Orders(order, c.qualifiers)
  {
    "pkg:" + (c.kind + "/" + RenderRest(keep, c, order))
  }

  ghost predicate GoodComponent(c: Component) {
    c.kind in ECOSYSTEMS && c.name != "" && forall s :: s in c.namespace ==> s != ""
  }

  // ---------------------------------------------------------------- paths

  lemma SlashAssociates(a: string, b: string, c: string)
    ensures a + "/" + b + c == a + ("/" + (b + c))
  {}

  lemma PathStepDecodes(keep: Keep, part: string, tail: string, t: ByteStrings.Bytes)
    requires Keepable(keep) && AllAscii(tail) && PercentBytes(tail) == t
    ensures AllAscii(Escape(keep, part) + ("/" + tail))
    ensures PercentBytes(Escape(keep, part) + ("/" + tail)) == Utf8(part) + (Encode('/') + t)
  {
    PlainDecodes('/', tail);
    EscapeDecodes(keep, part, "/" + tail);
  }

  lemma {:induction false} PathDecodes(keep: Keep, parts: seq<string>, r: string)
    requires Keepable(keep) && parts != [] && AllAscii(r)
    ensures AllAscii(EscapePath(keep, parts) + r)
    ensures PercentBytes(EscapePath(keep, parts) + r) == Utf8(JoinPath(parts)) + PercentBytes(r)
    decreases |parts|
  {
    if |parts| == 1 {
      EscapeDecodes(keep, parts[0], r);
    } else {
      var tail := EscapePath(keep, parts[1..]) + r;
      PathDecodes(keep, parts[1..], r);
      PathStepDecodes(keep, parts[0], tail, PercentBytes(tail));
      SlashAssociates(Escape(keep, parts[0]), EscapePath(keep, parts[1..]), r);
      Utf8OfPath(parts, PercentBytes(r));
    }
  }

  lemma {:induction false} Utf8OfMore(s: string, t: string)
    ensures Utf8(s + t) == Utf8(s) + Utf8(t)
    decreases |s|
  {
    if s == [] {
      assert s + t == t;
    } else {
      assert (s + t)[1..] == s[1..] + t;
      Utf8OfMore(s[1..], t);
      ByteStrings.Associative(Encode(s[0]), Utf8(s[1..]), Utf8(t));
    }
  }

  lemma Utf8OfJoined(a: string, b: string, r: ByteStrings.Bytes)
    ensures Utf8(a + ("/" + b)) + r == Utf8(a) + (Encode('/') + (Utf8(b) + r))
  {
    Utf8OfMore(a, "/" + b);
    assert ("/" + b)[1..] == b;
    ByteStrings.Associative(Utf8(a), Utf8("/" + b), r);
    ByteStrings.Associative(Encode('/'), Utf8(b), r);
  }

  lemma Utf8OfPath(parts: seq<string>, r: ByteStrings.Bytes)
    requires |parts| > 1
    ensures Utf8(JoinPath(parts)) + r == Utf8(parts[0]) + (Encode('/') + (Utf8(JoinPath(parts[1..])) + r))
  {
    Utf8OfJoined(parts[0], JoinPath(parts[1..]), r);
    ByteStrings.Associative(parts[0], "/", JoinPath(parts[1..]));
  }

  /** Slashes that join escaped parts stay slashes. */
  lemma UnquoteOfPath(keep: Keep, parts: seq<string>)
    requires Keepable(keep) && parts != []
    ensures Unquote(EscapePath(keep, parts)) == JoinPath(parts)
  {
    PathDecodes(keep, parts, []);
    assert EscapePath(keep, parts) + [] == EscapePath(keep, parts);
    assert Utf8(JoinPath(parts)) + [] == Utf8(JoinPath(parts));
    UnquoteOfAscii(EscapePath(keep, parts));
    DecodeOfUtf8(JoinPath(parts));
  }

  lemma {:induction false} PathHidesQuestion(keep: Keep, parts: seq<string>)
    requires Keepable(keep) && parts != []
    ensures '?' !in EscapePath(keep, parts)
    decreases |parts|
  {
    EscapeHidesSeparators(keep, parts[0]);
    if |parts| > 1 {
      PathHidesQuestion(keep, parts[1..]);
    }
  }

  /** An at sign is left as it is in some part. */
  ghost predicate LiteralAt(keep: Keep, parts: seq<string>) {
    keep('@') && exists p :: p in parts && '@' in p
  }

  lemma {:induction false} AtInPath(keep: Keep, parts: seq<string>)
    requires parts != []
    ensures '@' in EscapePath(keep, parts) <==> LiteralAt(keep, parts)
    decreases |parts|
  {
    AtInEscape(keep, parts[0]);
    if |parts| > 1 {
      AtInPath(keep, parts[1..]);
      assert forall p :: p in parts <==> p == parts[0] || p in parts[1..];
    }
  }

  // ---------------------------------------------------------------- qualifiers

  lemma QualifierParses(keep: Keep, q: map<string, string>, key: string, value: string)
    requires Keepable(keep)
    ensures WithQualifier(q, RenderQualifier(keep, key, value)) == q[key := value]
    ensures '&' !in RenderQualifier(keep, key, value)
  {
    var (k, v) := (Escape(keep, key), Escape(keep, value));
    EscapeHidesSeparators(keep, key);
    EscapeHidesSeparators(keep, value);
    SplitAt(k, '=', v);
    assert RenderQualifier(keep, key, value) == k + ['='] + v;
    UnquoteOfEscape(keep, key);
    UnquoteOfEscape(keep, value);
  }

  /** The qualifiers named by `order` are added one by one. */
  ghost function AddAll(m: map<string, string>, q: map<string, string>, order: seq<string>): map<string, string>
    requires forall k :: k in order ==> k in q
    decreases |order|
  {
    if order == [] then m else AddAll(m[order[0] := q[order[0]]], q, order[1..])
  }

  lemma {:induction false} AddAllEffect(m: map<string, string>, q: map<string, string>, order: seq<string>)
    requires forall k :: k in order ==> k in q
    ensures forall k :: k in AddAll(m, q, order) <==> k in m || k in order
    ensures forall k :: k in AddAll(m, q, order) ==> AddAll(m, q, order)[k] == if k in order then q[k] else m[k]
    decreases |order|
  {
    if order != [] {
      AddAllEffect(m[order[0] := q[order[0]]], q, order[1..]);
      assert forall k :: k in order <==> k == order[0] || k in order[1..];
    }
  }

  lemma {:induction false} QualifiersParse(keep: Keep, m: map<string, string>, q: map<string, string>,
      order: seq<string>)
    requires Keepable(keep) && order != [] && forall k :: k in order ==> k in q
    ensures WithQualifiers(m, SplitAll(RenderQualifiers(keep, q, order), '&')) == AddAll(m, q, order)
    decreases |order|
  {
    var pair := RenderQualifier(keep, order[0], q[order[0]]);
    var m' := m[order[0] := q[order[0]]];
    QualifierParses(keep, m, order[0], q[order[0]]);
    if |order| == 1 {
      assert RenderQualifiers(keep, q, order) == pair;
      assert SplitAll(pair, '&') == [pair] && [pair][1..] == [];
    } else {
      var rest := RenderQualifiers(keep, q, order[1..]);
      assert RenderQualifiers(keep, q, order) == pair + ['&'] + rest;
      SplitAt(pair, '&', rest);
      QualifiersParse(keep, m', q, order[1..]);
      var pairs := [pair] + SplitAll(rest, '&');
      assert SplitAll(pair + ['&'] + rest, '&') == pairs && pairs[1..] == SplitAll(rest, '&');
    }
  }

  lemma QualifiersRoundTrip(keep: Keep, q: map<string, string>, order: seq<string>)
    requires Keepable(keep) && Orders(order, q) && order != []
    ensures QualifiersOf(RenderQualifiers(keep, q, order)) == q
  {
    QualifiersParse(keep, map[], q, order);
    AddAllEffect(map[], q, order);
    assert RenderQualifiers(keep, q, order) != "";
    assert AddAll(map[], q, order).Keys == q.Keys;
  }

  // ---------------------------------------------------------------- round trip

  lemma KindHasNoSlash(kind: string)
    requires kind in ECOSYSTEMS
    ensures '/' !in kind
  {
    assert kind in ["pypi", "npm", "gem", "maven", "packagist"];
  }

  lemma ParsesType(kind: string, rest: string)
    requires kind in ECOSYSTEMS
    ensures Parsed("pkg:" + (kind + ['/'] + rest)) == Ok(ParsedRest(ECOSYSTEMS[kind], rest))
  {
    var text := kind + ['/'] + rest;
    KindHasNoSlash(kind);
    SplitAt(kind, '/', rest);
    assert ("pkg:" + text)[..4] == "pkg:" && ("pkg:" + text)[4..] == text && text[|kind|] == '/';
  }

  /** The parser finds the type and the text after it. */
  lemma ParsesKind(keep: Keep, c: Component, order: seq<string>)
    requires GoodComponent(c) && Orders(order, c.qualifiers)
    ensures Parsed(Render(keep, c, order)) == Ok(ParsedRest(ECOSYSTEMS[c.kind], RenderRest(keep, c, order)))
  {
    ParsesType(c.kind, RenderRest(keep, c, order));
    assert c.kind + "/" + RenderRest(keep, c, order) == c.kind + ['/'] + RenderRest(keep, c, order);
  }

  /** What the parser makes of the path. */
  ghost function ParsedPath(ecosystem: string, parts: seq<string>, version: Option<string>, q: map<string, string>)
    : Package
    requires parts != []
  {
    if |parts| == 1 then PackageOf(ecosystem, None, parts[0], version, q)
    else PackageOf(ecosystem, Some(parts[0]), JoinPath(parts[1..]), version, q)
  }

  ghost function OfPath(ecosystem: string, path: string, version: Option<string>, q: map<string, string>): Package {
    if '/' in path then PackageOf(ecosystem, Some(Unquote(Before(path, '/'))), Unquote(After(path, '/')), version, q)
    else PackageOf(ecosystem, None, Unquote(path), version, q)
  }

  lemma ParsesPath(keep: Keep, ecosystem: string, parts: seq<string>, version: Option<string>, q: map<string, string>)
    requires Keepable(keep) && parts != []
    ensures OfPath(ecosystem, EscapePath(keep, parts), version, q) == ParsedPath(ecosystem, parts, version, q)
  {
    EscapeHidesSeparators(keep, parts[0]);
    UnquoteOfEscape(keep, parts[0]);
    if |parts| > 1 {
      var (head, tail) := (Escape(keep, parts[0]), EscapePath(keep, parts[1..]));
      SplitAt(head, '/', tail);
      assert EscapePath(keep, parts) == head + ['/'] + tail;
      assert (head + ['/'] + tail)[|head|] == '/';
      UnquoteOfPath(keep, parts[1..]);
    }
  }

  ghost function OfPathAndVersion(ecosystem: string, rest: string, q: map<string, string>): Package {
    OfPath(ecosystem, Before(rest, '@'), if '@' in rest then Some(Unquote(After(rest, '@'))) else None, q)
  }

  ghost function PartsOf(c: Component): seq<string> {
    c.namespace + [c.name]
  }

  lemma NoQuestionBeforeQualifiers(keep: Keep, c: Component)
    requires Keepable(keep)
    ensures '?' !in RenderPathAndVersion(keep, c)
  {
    PathHidesQuestion(keep, PartsOf(c));
    if c.version.Some? {
      EscapeHidesSeparators(keep, c.version.value);
    }
  }

  lemma ParsesPathAndVersion(keep: Keep, ecosystem: string, c: Component, q: map<string, string>)
    requires Keepable(keep) && !LiteralAt(keep, PartsOf(c))
    ensures OfPathAndVersion(ecosystem, RenderPathAndVersion(keep, c), q)
      == ParsedPath(ecosystem, PartsOf(c), c.version, q)
  {
    var path := EscapePath(keep, PartsOf(c));
    AtInPath(keep, PartsOf(c));
    ParsesPath(keep, ecosystem, PartsOf(c), c.version, q);
    if c.version.Some? {
      var v := Escape(keep, c.version.value);
      UnquoteOfEscape(keep, c.version.value);
      SplitAt(path, '@', v);
      assert RenderPathAndVersion(keep, c) == path + ['@'] + v;
      assert (path + ['@'] + v)[|path|] == '@';
    } else {
      Unsplit(path, '@');
      assert RenderPathAndVersion(keep, c) == path;
    }
  }

  lemma ParsedRestIs(ecosystem: string, rest: string)
    ensures ParsedRest(ecosystem, rest)
      == OfPathAndVersion(ecosystem, Before(rest, '?'), if '?' in rest then QualifiersOf(After(rest, '?')) else map[])
  {}

  lemma ParsesQualifiers(ecosystem: string, text: string, q: map<string, string>, qualifiers: string)
    requires '?' !in text && QualifiersOf(qualifiers) == q
    ensures ParsedRest(ecosystem, text + ['?'] + qualifiers) == OfPathAndVersion(ecosystem, text, q)
  {
    SplitAt(text, '?', qualifiers);
    assert (text + ['?'] + qualifiers)[|text|] == '?';
    ParsedRestIs(ecosystem, text + ['?'] + qualifiers);
  }

  lemma ParsesNoQualifiers(ecosystem: string, text: string)
    requires '?' !in text
    ensures ParsedRest(ecosystem, text) == OfPathAndVersion(ecosystem, text, map[])
  {
    Unsplit(text, '?');
    ParsedRestIs(ecosystem, text);
  }

  lemma ParsesRest(keep: Keep, ecosystem: string, c: Component, order: seq<string>)
    requires Keepable(keep) && Orders(order, c.qualifiers)
    ensures ParsedRest(ecosystem, RenderRest(keep, c, order))
      == OfPathAndVersion(ecosystem, RenderPathAndVersion(keep, c), c.qualifiers)
  {
    var text := RenderPathAndVersion(keep, c);
    NoQuestionBeforeQualifiers(keep, c);
    if order == [] {
      assert c.qualifiers == map[] by {
        assert forall k :: k !in c.qualifiers;
      }
      assert RenderRest(keep, c, order) == text;
      ParsesNoQualifiers(ecosystem, text);
    } else {
      var qualifiers := RenderQualifiers(keep, c.qualifiers, order);
      QualifiersRoundTrip(keep, c.qualifiers, order);
      assert RenderRest(keep, c, order) == text + ['?'] + qualifiers;
      ParsesQualifiers(ecosystem, text, c.qualifiers, qualifiers);
    }
  }

  /** What parsing a rendered component gives, for any namespace without a literal at sign. */
  lemma ParsedRender(keep: Keep, c: Component, order: seq<string>)
    requires Keepable(keep) && GoodComponent(c) && Orders(order, c.qualifiers) && !LiteralAt(keep, PartsOf(c))
    ensures Parsed(Render(keep, c, order)) == Ok(ParsedPath(ECOSYSTEMS[c.kind], PartsOf(c), c.version, c.qualifiers))
  {
    ParsesKind(keep, c, order);
    ParsesRest(keep, ECOSYSTEMS[c.kind], c, order);
    ParsesPathAndVersion(keep, ECOSYSTEMS[c.kind], c, c.qualifiers);
  }

  // ---------------------------------------------------------------- literal at signs

  lemma {:induction false} AfterSkips(a: string, c: char, b: string)
    requires c !in a
    ensures After(a + b, c) == After(b, c)
    decreases |a|
  {
    if a == [] {
      assert a + b == b;
    } else {
      assert (a + b)[1..] == a[1..] + b;
      AfterSkips(a[1..], c, b);
    }
  }

  /** `e` is ASCII and stands for `u` and then what `r` stands for. */
  ghost predicate StandsFor(e: string, u: string, r: string) {
    AllAscii(e) && AllAscii(r) && PercentBytes(e) == Utf8(u) + PercentBytes(r)
  }

  lemma {:induction false} AfterAtInEscape(keep: Keep, s: string, r: string) returns (u: string)
    requires Keepable(keep) && AllAscii(r) && keep('@') && '@' in s
    ensures StandsFor(After(Escape(keep, s) + r, '@'), u, r)
    decreases |s|
  {
    var rest := Escape(keep, s[1..]) + r;
    assert Escape(keep, s) + r == EscapeChar(keep, s[0]) + rest;
    if s[0] == '@' {
      assert ("@" + rest)[1..] == rest;
      EscapeDecodes(keep, s[1..], r);
      u := s[1..];
    } else {
      NoAtInPercents(Encode(s[0]));
      AfterSkips(EscapeChar(keep, s[0]), '@', rest);
      u := AfterAtInEscape(keep, s[1..], r);
    }
  }

  lemma StandsForPath(e: string, u: string, keep: Keep, parts: seq<string>, r: string)
    requires Keepable(keep) && parts != [] && AllAscii(r)
    requires StandsFor(e, u, "/" + (EscapePath(keep, parts) + r))
    ensures StandsFor(e, u + ("/" + JoinPath(parts)), r)
  {
    PathDecodes(keep, parts, r);
    PlainDecodes('/', EscapePath(keep, parts) + r);
    Utf8OfJoined(u, JoinPath(parts), PercentBytes(r));
  }

  /** What follows the first literal at sign of a path: the rest of the path and all that comes after it. */
  lemma {:induction false} AfterAtInPath(keep: Keep, parts: seq<string>, r: string) returns (u: string)
    requires Keepable(keep) && parts != [] && AllAscii(r) && LiteralAt(keep, parts)
    ensures StandsFor(After(EscapePath(keep, parts) + r, '@'), u, r)
    decreases |parts|
  {
    if |parts| == 1 {
      u := AfterAtInEscape(keep, parts[0], r);
    } else {
      var tail := EscapePath(keep, parts[1..]) + r;
      SlashAssociates(Escape(keep, parts[0]), EscapePath(keep, parts[1..]), r);
      PathDecodes(keep, parts[1..], r);
      if '@' in parts[0] {
        var first := AfterAtInEscape(keep, parts[0], "/" + tail);
        StandsForPath(After(EscapePath(keep, parts) + r, '@'), first, keep, parts[1..], r);
        u := first + ("/" + JoinPath(parts[1..]));
      } else {
        AtInEscape(keep, parts[0]);
        AfterSkips(Escape(keep, parts[0]), '@', "/" + tail);
        AfterSkips("/", '@', tail);
        u := AfterAtInPath(keep, parts[1..], r);
      }
    }
  }

  lemma UnquoteOfStandsFor(e: string, u: string, keep: Keep, v: string)
    requires Keepable(keep) && StandsFor(e, u, "@" + Escape(keep, v))
    ensures Unquote(e) == u + ("@" + v)
  {
    EscapeDecodes(keep, v, []);
    assert Escape(keep, v) + [] == Escape(keep, v) && Utf8(v) + [] == Utf8(v);
    PlainDecodes('@', Escape(keep, v));
    assert ("@" + v)[1..] == v;
    Utf8OfMore(u, "@" + v);
    UnquoteOfAscii(e);
    DecodeOfUtf8(u + ("@" + v));
  }

  /** With a literal at sign in the path the version that is parsed is not the component's. */
  lemma LiteralAtTakesVersion(keep: Keep, ecosystem: string, c: Component, q: map<string, string>)
    requires Keepable(keep) && LiteralAt(keep, PartsOf(c))
    ensures OfPathAndVersion(ecosystem, RenderPathAndVersion(keep, c), q).version != c.version
  {
    var path := EscapePath(keep, PartsOf(c));
    AtInPath(keep, PartsOf(c));
    assert '@' in RenderPathAndVersion(keep, c);
    if c.version.Some? {
      var r := "@" + Escape(keep, c.version.value);
      EscapeHidesSeparators(keep, c.version.value);
      var u := AfterAtInPath(keep, PartsOf(c), r);
      UnquoteOfStandsFor(After(path + r, '@'), u, keep, c.version.value);
      assert |u + ("@" + c.version.value)| > |c.version.value|;
    }
  }

  // ---------------------------------------------------------------- round trip

  /** The package a component describes: its namespace whole, and for Maven `group:artifact` as the name. */
  ghost function Meaning(c: Component): Package
    requires c.kind in ECOSYSTEMS
  {
    PackageOf(ECOSYSTEMS[c.kind], if c.namespace == [] then None else Some(JoinPath(c.namespace)), c.name,
      c.version, c.qualifiers)
  }

  lemma DeepPathsDiffer(namespace: seq<string>, name: string)
    requires |namespace| > 1 && name != ""
    ensures namespace[0] != JoinPath(namespace)
    ensures namespace[0] + ":" + JoinPath(namespace[1..] + [name]) != JoinPath(namespace) + ":" + name
  {
    var (a, b) := (namespace[0] + ":" + JoinPath(namespace[1..] + [name]), JoinPath(namespace) + ":" + name);
    assert JoinPath(namespace) == namespace[0] + "/" + JoinPath(namespace[1..]);
    assert a[|namespace[0]|] == ':' && b[|namespace[0]|] == '/';
  }

  lemma {:induction false} PathIsNotEmpty(parts: seq<string>)
    requires parts != [] && parts[|parts| - 1] != ""
    ensures JoinPath(parts) != ""
    decreases |parts|
  {
    if |parts| > 1 { PathIsNotEmpty(parts[1..]); }
  }

  /** Taking a path apart gives back the meaning exactly up to one segment of namespace. */
  lemma ParsedPathMeans(c: Component)
    requires GoodComponent(c)
    ensures ParsedPath(ECOSYSTEMS[c.kind], PartsOf(c), c.version, c.qualifiers) == Meaning(c) <==> |c.namespace| <= 1
  {
    if c.namespace == [] {
      assert PartsOf(c) == [c.name];
    } else if |c.namespace| == 1 {
      assert PartsOf(c) == [c.namespace[0], c.name];
      assert [c.namespace[0], c.name][1..] == [c.name];
    } else {
      DeepNamespaceIsSplit(c);
    }
  }

  lemma DeepNamespaceIsSplit(c: Component)
    requires GoodComponent(c) && |c.namespace| > 1
    ensures ParsedPath(ECOSYSTEMS[c.kind], PartsOf(c), c.version, c.qualifiers) != Meaning(c)
  {
    var (first, tail) := (c.namespace[0], c.namespace[1..] + [c.name]);
    assert PartsOf(c)[0] == first && PartsOf(c)[1..] == tail;
    assert first in c.namespace;
    DeepPathsDiffer(c.namespace, c.name);
    PathIsNotEmpty(tail);
    assert JoinPath(c.namespace) != "";
  }

  /** Parsing a rendered component gives back the package it describes if and only if the namespace has at most
      one segment, a deeper one being split after its first segment, and no at sign in namespace or name is left
      unescaped. */
  lemma RoundTripIff(keep: Keep, c: Component, order: seq<string>)
    requires Keepable(keep) && GoodComponent(c) && Orders(order, c.qualifiers)
    ensures Parsed(Render(keep, c, order)) == Ok(Meaning(c)) <==> |c.namespace| <= 1 && !LiteralAt(keep, PartsOf(c))
  {
    if LiteralAt(keep, PartsOf(c)) {
      ParsesKind(keep, c, order);
      ParsesRest(keep, ECOSYSTEMS[c.kind], c, order);
      LiteralAtTakesVersion(keep, ECOSYSTEMS[c.kind], c, c.qualifiers);
    } else {
      ParsedRender(keep, c, order);
      ParsedPathMeans(c);
    }
  }

  // ---------------------------------------------------------------- package information

  /** Name, version and ecosystem; only npm puts the namespace before the name. */
  function InfoOf(p: Package): (string, string, string) {
    var name := if p.name.Some? then p.name.value else "";
    (if p.ecosystem == "npm" && p.namespace.Some? && p.namespace.value != "" then p.namespace.value + "/" + name
      else name,
     if p.version.Some? then p.version.value else "",
     p.ecosystem)
  }

  lemma NpmPathName(parts: seq<string>, version: Option<string>, q: map<string, string>)
    requires parts != [] && parts[0] != ""
    ensures InfoOf(ParsedPath("npm", parts, version, q)).0 == JoinPath(parts)
  {}

  /** For npm the name includes the whole namespace, however deep. */
  lemma NpmNameIsWhole(keep: Keep, c: Component, order: seq<string>)
    requires Keepable(keep) && GoodComponent(c) && Orders(order, c.qualifiers) && c.kind == "npm"
    requires !LiteralAt(keep, PartsOf(c))
    ensures
      var r := Parsed(Render(keep, c, order));
      r.Ok? && InfoOf(r.value).0 == JoinPath(PartsOf(c))
  {
    ParsedRender(keep, c, order);
    if c.namespace != [] {
      assert c.namespace[0] in c.namespace;
    }
    NpmPathName(PartsOf(c), c.version, c.qualifiers);
  }

  /** The scope and the name lost, and all text up to the qualifiers taken for the version. */
  ghost function Misread(text: string): Package {
    Package("npm", None, Some(""), Some(Unquote(Before(text, '?'))),
      if '?' in text then QualifiersOf(After(text, '?')) else map[])
  }

  lemma LiteralScopeRest(text: string)
    ensures ParsedRest("npm", "@" + text) == Misread(text)
  {
    assert ("@" + text)[1..] == text;
    var rest := Before("@" + text, '?');
    assert rest == [] + ['@'] + Before(text, '?') && rest[0] == '@';
    SplitAt([], '@', Before(text, '?'));
    AfterSkips("@", '?', text);
    assert '?' in "@" + text <==> '?' in text;
    ParsedRestIs("npm", "@" + text);
  }

  lemma LiteralScopeText(text: string)
    ensures "pkg:npm/@" + text == "pkg:" + ("npm" + ['/'] + ("@" + text))
  {}

  /** An npm scope whose at sign is not escaped, as in `pkg:npm/@angular/core@1.0`, is lost, whatever follows. */
  lemma LiteralScopeIsMisread(purl: string, text: string)
    requires purl == "pkg:npm/@" + text
    ensures Parsed(purl) == Ok(Misread(text))
  {
    LiteralScopeText(text);
    ParsesType("npm", "@" + text);
    LiteralScopeRest(text);
  }
}
