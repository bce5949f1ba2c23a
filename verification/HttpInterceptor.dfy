/** The interceptor's HTTP request parser. */
module HttpInterceptor {
  import opened Options
  import opened ByteStrings

  // ---------------------------------------------------------------- lines

  ghost function WithoutCR(line: Bytes): Bytes {
    if line != [] && line[|line| - 1] == CR then line[..|line| - 1] else line
  }

  /** The lines, without LF or CR LF; an unterminated last line counts unless it is empty, and keeps a CR. */
  ghost function LinesOf(s: Bytes): seq<Bytes>
    decreases |s|
  {
    var i := FirstIndex(s, LF);
    if i < |s| then [WithoutCR(s[..i])] + LinesOf(s[i + 1..])
    else if s == [] then [] else [s]
  }

  lemma FirstLineOf(a: Bytes, s: Bytes)
    requires LF !in a
    ensures LinesOf(a + [LF] + s) == [WithoutCR(a)] + LinesOf(s)
    ensures LinesOf(a) == if a == [] then [] else [a]
  {
    var t := a + [LF] + s;
    FirstIndexOf(a, LF, s);
    assert t[..|a|] == a && t[|a| + 1..] == s;
  }

  ghost function LinesFrom(data: Bytes, start: nat): seq<Bytes>
    requires start <= |data|
  {
    LinesOf(data[start..])
  }

  ghost predicate Without(data: Bytes, c: byte, start: nat, i: nat) {
    forall k :: start <= k < i && k < |data| ==> data[k] != c
  }

  /** The LF at `i` ends the line that began at `start`. */
  lemma LineEnds(data: Bytes, lines: seq<Bytes>, start: nat, i: nat, end: nat)
    requires start <= i < |data| && data[i] == LF && Without(data, LF, start, i)
      && (start == 0 || data[start - 1] == LF)
    requires end == if i > 0 && data[i - 1] == CR then i - 1 else i
    ensures start <= end
    ensures lines + LinesFrom(data, start) == lines + [data[start..end]] + LinesFrom(data, i + 1)
  {
    var (a, rest) := (data[start..i], data[i + 1..]);
    assert data[start..] == a + [LF] + rest;
    FirstLineOf(a, rest);
    assert data[start..end] == WithoutCR(a);
    Associative(lines, [data[start..end]], LinesOf(rest));
  }

  lemma LastLine(data: Bytes, start: nat)
    requires start <= |data| && Without(data, LF, start, |data|)
    ensures LinesFrom(data, start) == if start < |data| then [data[start..]] else []
  {
    FirstLineOf(data[start..], []);
  }

  method SplitLines(data: Bytes) returns (lines: seq<Bytes>)
    ensures lines == LinesOf(data)
  {
    lines := [];
    var start := 0;
    ghost var all := LinesFrom(data, 0);
    assert data[0..] == data;
    for i := 0 to |data|
      invariant 0 <= start <= i && Without(data, LF, start, i) && (start == 0 || data[start - 1] == LF)
      invariant lines + LinesFrom(data, start) == all
    {
      if data[i] == LF {
        var end := i;
        if end > 0 && data[end - 1] == CR {
          end := end - 1;
        }
        LineEnds(data, lines, start, i, end);
        lines := lines + [data[start..end]];
        start := i + 1;
      }
    }
    LastLine(data, start);
    if start < |data| {
      lines := lines + [data[start..]];
    }
  }

  // ---------------------------------------------------------------- words

  /** The maximal non-empty stretches without a space. */
  ghost function Words(s: Bytes): seq<Bytes>
    decreases |s|
  {
    var i := FirstIndex(s, SPACE);
    (if i > 0 then [s[..i]] else []) + (if i < |s| then Words(s[i + 1..]) else [])
  }

  lemma FirstWord(a: Bytes, s: Bytes)
    requires SPACE !in a
    ensures Words(a + [SPACE] + s) == (if a != [] then [a] else []) + Words(s)
    ensures Words(a) == if a != [] then [a] else []
  {
    var t := a + [SPACE] + s;
    FirstIndexOf(a, SPACE, s);
    assert t[..|a|] == a && t[|a| + 1..] == s && a[..|a|] == a;
  }

  /** What is left to split when the scan has passed all positions before `start`. */
  ghost function WordsFrom(data: Bytes, start: nat): seq<Bytes> {
    if start <= |data| then Words(data[start..]) else []
  }

  lemma WordEnds(data: Bytes, parts: seq<Bytes>, start: nat, i: nat)
    requires start <= i <= |data| && (i < |data| ==> data[i] == SPACE) && Without(data, SPACE, start, i)
    ensures parts + WordsFrom(data, start)
      == (if i > start then parts + [data[start..i]] else parts) + WordsFrom(data, i + 1)
  {
    NextWord(data, start, i);
    if i > start {
      Associative(parts, [data[start..i]], WordsFrom(data, i + 1));
    } else {
      assert [] + WordsFrom(data, i + 1) == WordsFrom(data, i + 1);
    }
  }

  lemma NextWord(data: Bytes, start: nat, i: nat)
    requires start <= i <= |data| && (i < |data| ==> data[i] == SPACE) && Without(data, SPACE, start, i)
    ensures WordsFrom(data, start) == (if i > start then [data[start..i]] else []) + WordsFrom(data, i + 1)
  {
    var a := data[start..i];
    if i < |data| {
      assert data[start..] == a + [SPACE] + data[i + 1..];
      FirstWord(a, data[i + 1..]);
    } else {
      assert data[start..] == a;
      FirstWord(a, []);
    }
  }

  /** The scan up to `i` has produced `parts`, and the word that may be under way began at `start`. */
  ghost predicate Scanned(data: Bytes, parts: seq<Bytes>, start: nat, i: nat) {
    && start <= i <= |data| + 1 && (i == |data| + 1 ==> start == i)
    && Without(data, SPACE, start, i)
    && parts + WordsFrom(data, start) == WordsFrom(data, 0)
  }

  lemma ScanBegins(data: Bytes)
    ensures Scanned(data, [], 0, 0)
  {}

  lemma ScanGoesOn(data: Bytes, parts: seq<Bytes>, start: nat, i: nat)
    requires Scanned(data, parts, start, i) && i < |data| && data[i] != SPACE
    ensures Scanned(data, parts, start, i + 1)
  {}

  lemma ScanEndsWord(data: Bytes, parts: seq<Bytes>, start: nat, i: nat)
    requires Scanned(data, parts, start, i) && i <= |data| && (i < |data| ==> data[i] == SPACE)
    ensures Scanned(data, if i > start then parts + [data[start..i]] else parts, i + 1, i + 1)
  {
    WordEnds(data, parts, start, i);
  }

  lemma ScanEnds(data: Bytes, parts: seq<Bytes>)
    requires Scanned(data, parts, |data| + 1, |data| + 1)
    ensures parts == Words(data)
  {
    assert data[0..] == data && parts + [] == parts;
  }

  method SplitSpaces(data: Bytes) returns (parts: seq<Bytes>)
    ensures parts == Words(data)
  {
    parts := [];
    var start := 0;
    ScanBegins(data);
    for i := 0 to |data| + 1
      invariant start >= 0 && Scanned(data, parts, start, i)
    {
      if i == |data| || data[i] == SPACE {
        ScanEndsWord(data, parts, start, i);
        if i > start {
          parts := parts + [data[start..i]];
        }
        start := i + 1;
      } else {
        ScanGoesOn(data, parts, start, i);
      }
    }
    ScanEnds(data, parts);
  }

  // ---------------------------------------------------------------- trimming

  predicate IsBlank(b: byte) {
    b == SPACE || b == TAB
  }

  /** Spaces and tabs only. */
  ghost predicate AllBlank(s: Bytes) {
    forall i :: 0 <= i < |s| ==> s[i] == 32 || s[i] == 9
  }

  ghost predicate NoBlankEnds(s: Bytes) {
    s != [] ==> s[0] != 32 && s[0] != 9 && s[|s| - 1] != 32 && s[|s| - 1] != 9
  }

  ghost predicate Parts(s: Bytes, a: Bytes, r: Bytes, b: Bytes) {
    AllBlank(a) && AllBlank(b) && s == a + r + b
  }

  /** `s` is `r` with blanks on both sides, and `r` has none there. */
  ghost predicate IsTrimmed(s: Bytes, r: Bytes) {
    NoBlankEnds(r) && exists a, b :: Parts(s, a, r, b)
  }

  ghost function Trimmed(s: Bytes): Bytes
    decreases |s|
  {
    if s != [] && IsBlank(s[0]) then Trimmed(s[1..])
    else if s != [] && IsBlank(s[|s| - 1]) then Trimmed(s[..|s| - 1])
    else s
  }

  lemma BlankBefore(s: Bytes, r: Bytes)
    requires s != [] && IsBlank(s[0]) && IsTrimmed(s[1..], r)
    ensures IsTrimmed(s, r)
  {
    var a, b :| Parts(s[1..], a, r, b);
    assert s == [s[0]] + (a + r + b);
    assert Parts(s, [s[0]] + a, r, b);
  }

  lemma BlankAfter(s: Bytes, r: Bytes)
    requires s != [] && IsBlank(s[|s| - 1]) && IsTrimmed(s[..|s| - 1], r)
    ensures IsTrimmed(s, r)
  {
    var a, b :| Parts(s[..|s| - 1], a, r, b);
    assert s == (a + r + b) + [s[|s| - 1]];
    assert Parts(s, a, r, b + [s[|s| - 1]]);
  }

  lemma {:induction false} TrimmedIsTrimmed(s: Bytes)
    ensures IsTrimmed(s, Trimmed(s))
    decreases |s|
  {
    if s != [] && IsBlank(s[0]) {
      TrimmedIsTrimmed(s[1..]);
      BlankBefore(s, Trimmed(s));
    } else if s != [] && IsBlank(s[|s| - 1]) {
      TrimmedIsTrimmed(s[..|s| - 1]);
      BlankAfter(s, Trimmed(s));
    } else {
      assert Parts(s, [], s, []);
    }
  }

  method TrimSpace(s: Bytes) returns (r: Bytes)
    ensures r == Trimmed(s)
  {
    var (start, end) := (0, |s|);
    while start < end && IsBlank(s[start])
      invariant 0 <= start <= end && AllBlank(s[..start])
    {
      start := start + 1;
    }
    while end > start && IsBlank(s[end - 1])
      invariant start <= end <= |s| && AllBlank(s[end..])
      invariant start < end ==> !IsBlank(s[start])
    {
      end := end - 1;
    }
    r := s[start..end];
    assert Parts(s, s[..start], r, s[end..]);
    TrimmedIsTrimmed(s);
    TrimmedIsUnique(s, r, Trimmed(s));
  }

  lemma NotShorter(s: Bytes, a: Bytes, r: Bytes, b: Bytes, a': Bytes, r': Bytes, b': Bytes)
    requires Parts(s, a, r, b) && NoBlankEnds(r) && Parts(s, a', r', b') && r != []
    ensures |a'| <= |a| && |b'| <= |b|
  {
    assert s[|a|] == r[0];
    assert s[|s| - |b| - 1] == r[|r| - 1];
    assert forall k :: 0 <= k < |a'| ==> s[k] == a'[k];
    assert forall k :: |s| - |b'| <= k < |s| ==> s[k] == b'[k - |s| + |b'|];
  }

  /** There is only one result of trimming. */
  lemma TrimmedIsUnique(s: Bytes, r: Bytes, r': Bytes)
    requires IsTrimmed(s, r) && IsTrimmed(s, r')
    ensures r == r'
  {
    var a, b :| Parts(s, a, r, b);
    var a', b' :| Parts(s, a', r', b');
    if r != [] {
      NotShorter(s, a, r, b, a', r', b');
    }
    if r' != [] {
      NotShorter(s, a', r', b', a, r, b);
    }
    assert r == s[|a|..|s| - |b|] && r' == s[|a'|..|s| - |b'|];
  }

  // ---------------------------------------------------------------- requests

  function Ascii(s: string): Bytes {
    seq(|s|, i requires 0 <= i < |s| => if (s[i] as int) < 256 then s[i] as int as byte else 0)
  }

  const HOST: Bytes := Ascii("Host")

  const HTTP_PREFIXES: seq<Bytes> :=
    [Ascii("GET "), Ascii("POST"), Ascii("PUT "), Ascii("DELE"), Ascii("HEAD"), Ascii("OPTI"), Ascii("PATC")]

  datatype Fields = Fields(protocol: string, method_: Bytes, path: Bytes, domain: Bytes, headers: map<Bytes, Bytes>)

  ghost function WithRequestLine(f: Fields, line: Bytes): Fields {
    var parts := Words(line);
    if |parts| >= 2 then f.(method_ := parts[0], path := parts[1]) else f
  }

  /** A line without a colon, or with one at its start, is skipped; a repeated name overwrites. */
  ghost function WithField(f: Fields, line: Bytes): Fields {
    var colon := FirstIndex(line, COLON);
    if colon == 0 || colon == |line| then f else AddField(f, line[..colon], Trimmed(line[colon + 1..]))
  }

  ghost function AddField(f: Fields, name: Bytes, value: Bytes): Fields {
    f.(headers := f.headers[name := value], domain := if name == HOST then value else f.domain)
  }

  /** Fields up to the first empty line. */
  ghost function WithFields(f: Fields, lines: seq<Bytes>): Fields
    decreases |lines|
  {
    if lines == [] || lines[0] == [] then f else WithFields(WithField(f, lines[0]), lines[1..])
  }

  ghost function Parsed(f: Fields, payload: Bytes): Fields {
    var lines := LinesOf(payload);
    if lines == [] then f else WithFields(WithRequestLine(f, lines[0]), lines[1..])
  }

  method IndexOf(data: Bytes, ch: byte) returns (i: int)
    ensures i == if ch in data then FirstIndex(data, ch) else -1
  {
    for k := 0 to |data|
      invariant forall j :: 0 <= j < k ==> data[j] != ch
    {
      if data[k] == ch {
        FirstIndexIsUnique(data, ch, k);
        return k;
      }
    }
    return -1;
  }

  class HttpRequest {
    const port: int
    var protocol: string
    var method_: Bytes
    var path: Bytes
    var domain: Bytes
    var headers: map<Bytes, Bytes>

    ghost function View(): Fields
      reads this
    {
      Fields(protocol, method_, path, domain, headers)
    }

    constructor (port: int)
      ensures this.port == port && View() == Fields("", [], [], [], map[])
    {
      this.port := port;
      protocol, method_, path, domain, headers := "", [], [], [], map[];
    }

    method ParseFieldLine(line: Bytes)
      modifies this
      ensures View() == WithField(old(View()), line)
    {
      var colon := IndexOf(line, COLON);
      if colon > 0 {
        var (key, value) := (line[..colon], line[colon + 1..]);
        var trimmed := TrimSpace(value);
        headers := headers[key := trimmed];
        if key == HOST {
          domain := TrimSpace(value);
        }
      }
    }

    method ParseHTTPRequest(payload: Bytes)
      modifies this
      ensures View() == Parsed(old(View()), payload)
    {
      var lines := SplitLines(payload);
      if |lines| == 0 {
        return;
      }
      var parts := SplitSpaces(lines[0]);
      if |parts| >= 2 {
        method_ := parts[0];
        path := parts[1];
      }
      for i := 1 to |lines|
        invariant WithFields(View(), lines[i..]) == Parsed(old(View()), payload)
      {
        if |lines[i]| == 0 {
          break;
        }
        assert lines[i..][1..] == lines[i + 1..];
        ParseFieldLine(lines[i]);
      }
    }

    /** A payload shorter than four bytes changes nothing. */
    method IdentifyProtocol(payload: Bytes)
      modifies this
      ensures View() == Identified(port, old(View()), payload)
    {
      if |payload| < 4 {
        return;
      }
      for i := 0 to |HTTP_PREFIXES|
        invariant View() == old(View()) && forall k :: 0 <= k < i ==> payload[..4] != HTTP_PREFIXES[k]
      {
        if payload[..|HTTP_PREFIXES[i]|] == HTTP_PREFIXES[i] {
          protocol := if port == 443 then "HTTPS" else "HTTP";
          ParseHTTPRequest(payload);
          return;
        }
      }
      if port == 25 || payload[..4] == Ascii("MAIL") || payload[..4] == Ascii("EHLO") {
        protocol := "SMTP";
        return;
      }
      if port == 21 || payload[..4] == Ascii("USER") || payload[..4] == Ascii("PASS") {
        protocol := "FTP";
      }
    }
  }

  ghost function Identified(port: int, f: Fields, payload: Bytes): Fields {
    if |payload| < 4 then f
    else if payload[..4] in HTTP_PREFIXES then Parsed(f.(protocol := if port == 443 then "HTTPS" else "HTTP"), payload)
    else if port == 25 || payload[..4] in [Ascii("MAIL"), Ascii("EHLO")] then f.(protocol := "SMTP")
    else if port == 21 || payload[..4] in [Ascii("USER"), Ascii("PASS")] then f.(protocol := "FTP")
    else f
  }

  // ---------------------------------------------------------------- rendering

  /** A header field with the optional white space around its value. */
  datatype Field = Field(name: Bytes, before: Bytes, value: Bytes, after: Bytes)

  ghost predicate GoodField(f: Field) {
    && f.name != [] && COLON !in f.name && LF !in f.name
    && AllBlank(f.before) && AllBlank(f.after)
    && NoBlankEnds(f.value) && LF !in f.value
  }

  const CRLF: Bytes := [CR, LF]

  function FieldLine(f: Field): Bytes {
    f.name + [COLON] + (f.before + f.value + f.after)
  }

  function RequestLine(method_: Bytes, path: Bytes, version: Bytes): Bytes {
    method_ + [SPACE] + (path + [SPACE] + version)
  }

  ghost function FieldLines(fields: seq<Field>): seq<Bytes> {
    if fields == [] then [] else [FieldLine(fields[0])] + FieldLines(fields[1..])
  }

  /** Field lines, the empty line and the body. */
  ghost function RenderFields(fields: seq<Field>, body: Bytes): Bytes {
    if fields == [] then CRLF + body else FieldLine(fields[0]) + CRLF + RenderFields(fields[1..], body)
  }

  /** A request message as in sections 3 and 5 of RFC 9112. */
  ghost function Render(method_: Bytes, path: Bytes, version: Bytes, fields: seq<Field>, body: Bytes): Bytes {
    RequestLine(method_, path, version) + CRLF + RenderFields(fields, body)
  }

  lemma LineWithCRLF(a: Bytes, s: Bytes)
    requires LF !in a
    ensures LinesOf(a + CRLF + s) == [a] + LinesOf(s)
  {
    assert a + CRLF + s == a + [CR] + [LF] + s;
    FirstLineOf(a + [CR], s);
    assert WithoutCR(a + [CR]) == a;
  }

  lemma GoodFieldLine(f: Field)
    requires GoodField(f)
    ensures LF !in FieldLine(f) && FieldLine(f) != []
  {
    assert LF !in f.before && LF !in f.after;
  }

  lemma {:induction false} LinesOfFields(fields: seq<Field>, body: Bytes)
    requires forall f :: f in fields ==> GoodField(f)
    ensures LinesOf(RenderFields(fields, body)) == FieldLines(fields) + ([[]] + LinesOf(body))
    decreases |fields|
  {
    if fields == [] {
      assert CRLF + body == [] + CRLF + body;
      LineWithCRLF([], body);
      assert [] + ([[]] + LinesOf(body)) == [[]] + LinesOf(body);
    } else {
      assert fields[0] in fields;
      GoodFieldLine(fields[0]);
      LineWithCRLF(FieldLine(fields[0]), RenderFields(fields[1..], body));
      LinesOfFields(fields[1..], body);
      Associative([FieldLine(fields[0])], FieldLines(fields[1..]), [[]] + LinesOf(body));
    }
  }

  lemma ParsesFieldLine(r: Fields, f: Field)
    requires GoodField(f)
    ensures WithField(r, FieldLine(f)) == AddField(r, f.name, f.value)
  {
    var raw := f.before + f.value + f.after;
    FirstIndexOf(f.name, COLON, raw);
    assert FieldLine(f)[..|f.name|] == f.name && FieldLine(f)[|f.name| + 1..] == raw;
    assert Parts(raw, f.before, f.value, f.after);
    TrimmedIsTrimmed(raw);
    TrimmedIsUnique(raw, f.value, Trimmed(raw));
  }

  ghost function AddFields(r: Fields, fields: seq<Field>): Fields
    decreases |fields|
  {
    if fields == [] then r else AddFields(AddField(r, fields[0].name, fields[0].value), fields[1..])
  }

  lemma {:induction false} ParsesFields(r: Fields, fields: seq<Field>, rest: seq<Bytes>)
    requires forall f :: f in fields ==> GoodField(f)
    ensures WithFields(r, FieldLines(fields) + ([[]] + rest)) == AddFields(r, fields)
    decreases |fields|
  {
    var lines := FieldLines(fields) + ([[]] + rest);
    if fields != [] {
      assert fields[0] in fields;
      GoodFieldLine(fields[0]);
      ParsesFieldLine(r, fields[0]);
      assert lines[1..] == FieldLines(fields[1..]) + ([[]] + rest);
      ParsesFields(AddField(r, fields[0].name, fields[0].value), fields[1..], rest);
    }
  }

  lemma ParsesRequestLine(r: Fields, method_: Bytes, path: Bytes, version: Bytes)
    requires method_ != [] && SPACE !in method_ && path != [] && SPACE !in path
    ensures WithRequestLine(r, RequestLine(method_, path, version)) == r.(method_ := method_, path := path)
  {
    FirstWord(method_, path + [SPACE] + version);
    FirstWord(path, version);
  }

  /** The value of the last field with the name; names are compared byte by byte. */
  ghost function LastOf(fields: seq<Field>, name: Bytes): Option<Bytes>
    decreases |fields|
  {
    if fields == [] then None
    else if LastOf(fields[1..], name).Some? then LastOf(fields[1..], name)
    else if fields[0].name == name then Some(fields[0].value)
    else None
  }

  ghost predicate HasHeaders(headers: map<Bytes, Bytes>, fields: seq<Field>) {
    && (forall n :: n in headers <==> LastOf(fields, n).Some?)
    && forall n :: n in headers ==> LastOf(fields, n) == Some(headers[n])
  }

  /** The last field of each name is added, and nothing else. */
  lemma {:induction false} AddFieldsEffect(r: Fields, fields: seq<Field>, n: Bytes)
    ensures
      var (a, last) := (AddFields(r, fields), LastOf(fields, n));
      && a.method_ == r.method_ && a.path == r.path && a.protocol == r.protocol
      && (n in a.headers <==> n in r.headers || last.Some?)
      && (n in a.headers ==> a.headers[n] == if last.Some? then last.value else r.headers[n])
      && (n == HOST ==> a.domain == if last.Some? then last.value else r.domain)
    decreases |fields|
  {
    if fields != [] {
      AddFieldsEffect(AddField(r, fields[0].name, fields[0].value), fields[1..], n);
    }
  }

  /** Parsing a rendered request gives back the method, the path and the headers, the last value of a repeated name
      winning, and sets the domain to the last value of the fields named exactly `Host`, or leaves it empty without
      such a field, whatever the version, the white space around values and the body are. */
  lemma RequestRoundTrip(
    protocol: string, method_: Bytes, path: Bytes, version: Bytes, fields: seq<Field>, body: Bytes)
    requires method_ != [] && SPACE !in method_ && LF !in method_
    requires path != [] && SPACE !in path && LF !in path && LF !in version
    requires forall f :: f in fields ==> GoodField(f)
    ensures
      var r := Parsed(Fields(protocol, [], [], [], map[]), Render(method_, path, version, fields, body));
      && r.method_ == method_ && r.path == path && r.protocol == protocol && HasHeaders(r.headers, fields)
      && r.domain == (if LastOf(fields, Ascii("Host")).Some? then LastOf(fields, Ascii("Host")).value else [])
  {
    var line := RequestLine(method_, path, version);
    assert LF !in line;
    LineWithCRLF(line, RenderFields(fields, body));
    LinesOfFields(fields, body);
    var blank := Fields(protocol, [], [], [], map[]);
    var start := blank.(method_ := method_, path := path);
    ParsesRequestLine(blank, method_, path, version);
    ParsesFields(start, fields, LinesOf(body));
    AddFieldsEffect(start, fields, HOST);
    forall n
      ensures n in AddFields(start, fields).headers <==> LastOf(fields, n).Some?
      ensures n in AddFields(start, fields).headers ==> LastOf(fields, n) == Some(AddFields(start, fields).headers[n])
    {
      AddFieldsEffect(start, fields, n);
    }
  }

  /** HTTP compares field names without case, but a message whose only host field is spelt `host` leaves the domain
      empty, whatever its value is. */
  lemma LowerCaseHostIsMissed(
    protocol: string, method_: Bytes, path: Bytes, version: Bytes, value: Bytes, body: Bytes)
    requires method_ != [] && SPACE !in method_ && LF !in method_
    requires path != [] && SPACE !in path && LF !in path && LF !in version
    requires NoBlankEnds(value) && LF !in value
    ensures
      var fields := [Field(Ascii("host"), [], value, [])];
      Parsed(Fields(protocol, [], [], [], map[]), Render(method_, path, version, fields, body)).domain == []
  {
    var f := Field(Ascii("host"), [], value, []);
    assert f.name == [104, 111, 115, 116] && HOST[0] == 72;
    assert GoodField(f);
    assert [f][1..] == [];
    assert LastOf([f], HOST) == None;
    RequestRoundTrip(protocol, method_, path, version, [f], body);
  }

  /** The payload begins with the text. */
  predicate Begins(payload: Bytes, s: string) {
    |s| <= |payload| && forall i :: 0 <= i < |s| ==> payload[i] as int == s[i] as int
  }

  lemma BeginsIff(payload: Bytes, s: string)
    requires |s| == 4 && forall i :: 0 <= i < 4 ==> s[i] as int < 256
    ensures Begins(payload, s) <==> |payload| >= 4 && payload[..4] == Ascii(s)
  {
    if Begins(payload, s) {
      assert forall i :: 0 <= i < 4 ==> payload[..4][i] == Ascii(s)[i];
    }
  }

  predicate BeginsHTTP(payload: Bytes) {
    || Begins(payload, "GET ") || Begins(payload, "POST") || Begins(payload, "PUT ") || Begins(payload, "DELE")
    || Begins(payload, "HEAD") || Begins(payload, "OPTI") || Begins(payload, "PATC")
  }

  lemma PrefixIff(payload: Bytes)
    ensures BeginsHTTP(payload) <==> |payload| >= 4 && payload[..4] in HTTP_PREFIXES
  {
    BeginsIff(payload, "GET ");
    BeginsIff(payload, "POST");
    BeginsIff(payload, "PUT ");
    BeginsIff(payload, "DELE");
    BeginsIff(payload, "HEAD");
    BeginsIff(payload, "OPTI");
    BeginsIff(payload, "PATC");
  }

  /** What a payload is taken for: HTTP by the first four bytes, HTTPS when the port is 443; else SMTP and FTP by port
      or greeting; nothing is set for any other payload or one shorter than four bytes. */
  lemma IdentifiedBy(port: int, f: Fields, payload: Bytes)
    ensures Identified(port, f, payload) ==
      if BeginsHTTP(payload) then Parsed(f.(protocol := if port == 443 then "HTTPS" else "HTTP"), payload)
      else if |payload| >= 4 && (port == 25 || Begins(payload, "MAIL") || Begins(payload, "EHLO"))
      then f.(protocol := "SMTP")
      else if |payload| >= 4 && (port == 21 || Begins(payload, "USER") || Begins(payload, "PASS"))
      then f.(protocol := "FTP")
      else f
  {
    PrefixIff(payload);
    BeginsIff(payload, "MAIL");
    BeginsIff(payload, "EHLO");
    BeginsIff(payload, "USER");
    BeginsIff(payload, "PASS");
  }

  /** The bytes that lines, words and fields are cut at. */
  lemma SeparatorsAreAscii()
    ensures [LF, CR, TAB, SPACE, COLON] == Ascii("\n\r\t :")
  {}

  const METHODS: seq<Bytes> :=
    [Ascii("GET"), Ascii("POST"), Ascii("PUT"), Ascii("DELETE"), Ascii("HEAD"), Ascii("OPTIONS"), Ascii("PATCH")]

  /** Requests with one of these methods are taken for HTTP, and for HTTPS on its port, and parsed. */
  lemma MethodsAreIdentified(port: int, f: Fields, method_: Bytes, path: Bytes, version: Bytes, fields: seq<Field>,
      body: Bytes)
    requires method_ in METHODS
    ensures
      var message := Render(method_, path, version, fields, body);
      Identified(port, f, message) == Parsed(f.(protocol := if port == 443 then "HTTPS" else "HTTP"), message)
  {
    var message := Render(method_, path, version, fields, body);
    var start := method_ + [SPACE];
    assert message[..|start|] == start;
    assert message[..4] == start[..4];
    var k :| 0 <= k < |METHODS| && METHODS[k] == method_;
    assert (METHODS[k] + [SPACE])[..4] == HTTP_PREFIXES[k];
  }
}
