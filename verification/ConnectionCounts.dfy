/** Which connection a request belongs to in transparent mode, and under what it is counted. */
module ConnectionCounts {
  import opened NetworkRequest
  import opened Decimal
  import RuleConditions
  import opened TransparentMode

  // ---------------------------------------------------------------- one connection

  lemma SplitAtFirst(c: char, a: string, s: string, b: string, t: string)
    requires c !in a && c !in b && a + [c] + s == b + [c] + t
    ensures a == b && s == t
  {
    var (x, y) := (a + [c] + s, b + [c] + t);
    assert x[|a|] == c && forall k :: 0 <= k < |a| ==> x[k] == a[k] && x[k] != c;
    assert y[|b|] == c && forall k :: 0 <= k < |b| ==> y[k] == b[k] && y[k] != c;
    assert |a| == |b|;
    assert a == x[..|a|] && b == y[..|b|];
    assert s == x[|a| + 1..] && t == y[|b| + 1..];
  }

  lemma SplitAtLast(c: char, a: string, s: string, b: string, t: string)
    requires c !in s && c !in t && a + [c] + s == b + [c] + t
    ensures a == b && s == t
  {
    var (x, y) := (a + [c] + s, b + [c] + t);
    assert x[|a|] == c && forall k :: |a| < k < |x| ==> x[k] == s[k - |a| - 1] && x[k] != c;
    assert y[|b|] == c && forall k :: |b| < k < |y| ==> y[k] == t[k - |b| - 1] && y[k] != c;
    assert |a| == |b|;
    assert a == x[..|a|] && b == y[..|b|];
    assert s == x[|a| + 1..] && t == y[|b| + 1..];
  }

  lemma NumbersDiffer(m: int, n: int)
    requires Itoa(m) == Itoa(n)
    ensures m == n
  {
    assert forall k: nat :: Digits(k)[0] in Digits(k) ==> Digits(k)[0] != '-';
    if m < 0 && n < 0 {
      assert Itoa(m)[1..] == Digits(-m) && Itoa(n)[1..] == Digits(-n);
    }
  }

  lemma NumbersArePlain(n: int)
    ensures forall c :: c in ":>/" ==> c !in Itoa(n)
  {
    forall c | c in ":>/" ensures c !in Itoa(n) {
      assert !IsDigit(c) && c != '-';
    }
  }

  function Endpoint(ip: string, port: int): string {
    ip + ":" + Itoa(port)
  }

  /** Whatever colons an address has, as those of IPv6 do, the port is what follows the last one. */
  lemma EndpointIsInjective(ip: string, port: int, ip': string, port': int)
    requires Endpoint(ip, port) == Endpoint(ip', port')
    ensures ip == ip' && port == port'
  {
    NumbersArePlain(port);
    NumbersArePlain(port');
    SplitAtLast(':', ip, Itoa(port), ip', Itoa(port'));
    NumbersDiffer(port, port');
  }

  predicate PlainAddresses(req: Request) {
    '>' !in req.sourceIP && '/' !in req.ip
  }

  predicate SameFlow(a: Request, b: Request) {
    && a.sourceIP == b.sourceIP && a.sourcePort == b.sourcePort && a.ip == b.ip && a.port == b.port
    && a.protocol == b.protocol
  }

  lemma KeyParts(req: Request)
    ensures
      var to := Endpoint(req.ip, req.port) + ['/'] + req.protocol;
      ConnectionKey(req) == (Endpoint(req.sourceIP, req.sourcePort) + "-") + ['>'] + to
  {}

  lemma TargetsSplit(a: Request, b: Request)
    requires PlainAddresses(a) && PlainAddresses(b)
    requires Endpoint(a.ip, a.port) + ['/'] + a.protocol == Endpoint(b.ip, b.port) + ['/'] + b.protocol
    ensures a.ip == b.ip && a.port == b.port && a.protocol == b.protocol
  {
    NumbersArePlain(a.port);
    NumbersArePlain(b.port);
    SplitAtFirst('/', Endpoint(a.ip, a.port), a.protocol, Endpoint(b.ip, b.port), b.protocol);
    EndpointIsInjective(a.ip, a.port, b.ip, b.port);
  }

  lemma SourcesSplit(a: Request, b: Request, to: string, to': string)
    requires PlainAddresses(a) && PlainAddresses(b)
    requires (Endpoint(a.sourceIP, a.sourcePort) + "-") + ['>'] + to
      == (Endpoint(b.sourceIP, b.sourcePort) + "-") + ['>'] + to'
    ensures a.sourceIP == b.sourceIP && a.sourcePort == b.sourcePort && to == to'
  {
    var (from, from') := (Endpoint(a.sourceIP, a.sourcePort), Endpoint(b.sourceIP, b.sourcePort));
    NumbersArePlain(a.sourcePort);
    NumbersArePlain(b.sourcePort);
    SplitAtFirst('>', from + "-", to, from' + "-", to');
    assert from == (from + "-")[..|from|] && from' == (from' + "-")[..|from'|];
    EndpointIsInjective(a.sourceIP, a.sourcePort, b.sourceIP, b.sourcePort);
  }

  /** Requests share a connection exactly when addresses, ports and protocol are the same. */
  lemma ConnectionKeyIsInjective(a: Request, b: Request)
    requires PlainAddresses(a) && PlainAddresses(b)
    ensures ConnectionKey(a) == ConnectionKey(b) <==> SameFlow(a, b)
  {
    if ConnectionKey(a) == ConnectionKey(b) {
      KeyParts(a);
      KeyParts(b);
      SourcesSplit(a, b, Endpoint(a.ip, a.port) + ['/'] + a.protocol, Endpoint(b.ip, b.port) + ['/'] + b.protocol);
      TargetsSplit(a, b);
    }
  }

  // ---------------------------------------------------------------- classification

  const NAMED := {"HTTP", "HTTPS", "DNS", "SMTP", "FTP"}

  const PORTS: map<int, string> :=
    map[80 := "HTTP", 443 := "HTTPS", 53 := "DNS", 25 := "SMTP", 587 := "SMTP", 465 := "SMTPS", 21 := "FTP",
        22 := "SSH", 110 := "POP3", 143 := "IMAP"]

  const GREETINGS: map<string, string> :=
    map["GET " := "HTTP", "POST" := "HTTP", "PUT " := "HTTP", "HEAD" := "HTTP",
        "EHLO" := "SMTP", "HELO" := "SMTP", "MAIL" := "SMTP",
        "USER" := "FTP", "PASS" := "FTP", "RETR" := "FTP"]

  lemma UpperIff(a: string, name: string)
    requires forall c :: c in name ==> !('a' <= c <= 'z')
    ensures ToUpper(a) == name <==> RuleConditions.SameText(a, name)
  {
    if RuleConditions.SameText(a, name) {
      forall i | 0 <= i < |a| ensures ToUpper(a)[i] == name[i] {
        assert name[i] in name;
      }
    }
    if ToUpper(a) == name {
      forall i | 0 <= i < |a| ensures RuleConditions.SameLetter(a[i], name[i]) {
        assert ToUpper(a)[i] == name[i];
      }
    }
  }

  lemma NamedIff(a: string, name: string)
    requires name in NAMED + {"TCP", "UDP"}
    ensures ToUpper(a) == name <==> RuleConditions.SameText(a, name)
  {
    assert forall c :: c in name ==> !('a' <= c <= 'z');
    UpperIff(a, name);
  }

  /** The protocol is the one the request names, in any case; else that of its port; else the one its payload opens
      with; else unknown. */
  lemma ClassifiedBy(req: Request)
    ensures
      var app := IdentifyAppProtocol(req);
      if exists name :: name in NAMED && RuleConditions.SameText(req.protocol, name)
      then app in NAMED && RuleConditions.SameText(req.protocol, app)
      else if req.port in PORTS then app == PORTS[req.port]
      else if |req.body| >= 4 && req.body[..4] in GREETINGS then app == GREETINGS[req.body[..4]]
      else app == ""
  {
    var upper := ToUpper(req.protocol);
    if name :| name in NAMED && RuleConditions.SameText(req.protocol, name) {
      NamedIff(req.protocol, name);
    }
    if upper in NAMED {
      NamedIff(req.protocol, upper);
    }
  }

  // ---------------------------------------------------------------- what a request counts

  function One(b: bool): int {
    if b then 1 else 0
  }

  function CountOf(m: map<string, int>, key: string): int {
    if key in m then m[key] else 0
  }

  /** A request that opens a connection is counted once, by transport and by protocol, and the connection is made of
      its fields. */
  lemma OpeningCounts(t: Table, req: Request)
    requires ConnectionKey(req) !in t.connections
    ensures
      var (s, t', app) := (t.stats, Tracked(t, req), IdentifyAppProtocol(req));
      var s' := t'.stats;
      && s'.totalConnections == s.totalConnections + 1
      && s'.tcpConnections == s.tcpConnections + One(RuleConditions.SameText(req.protocol, "TCP"))
      && s'.udpConnections == s.udpConnections + One(RuleConditions.SameText(req.protocol, "UDP"))
      && s'.unknownProtocols == s.unknownProtocols + One(app == "")
      && (forall p :: CountOf(s'.protocolBreakdown, p) == CountOf(s.protocolBreakdown, p) + One(p == app && app != ""))
      && s'.icmpPackets == s.icmpPackets && s'.totalBytesObserved == s.totalBytesObserved
      && s'.extractedPayloads == s.extractedPayloads
      && t'.connections.Keys == t.connections.Keys + {ConnectionKey(req)}
      && (forall k :: k in t.connections ==> t'.connections[k] == t.connections[k])
      && t'.connections[ConnectionKey(req)]
        == ConnectionInfo(req.protocol, app, req.sourceIP, req.sourcePort, req.ip, req.port, req.domain,
                          req.contentLength)
  {
    NamedIff(req.protocol, "TCP");
    NamedIff(req.protocol, "UDP");
  }

  /** A later request of the connection adds its bytes, brings its domain if it has one, and the protocol if it was
      unknown and the request names a transport; it counts nothing. */
  lemma LaterCounts(t: Table, req: Request)
    requires ConnectionKey(req) in t.connections
    ensures
      var (key, t') := (ConnectionKey(req), Tracked(t, req));
      var (c, c') := (t.connections[key], t'.connections[key]);
      && t'.stats == t.stats && t'.connections == t.connections[key := c']
      && c'.bytesSent == c.bytesSent + req.contentLength
      && c'.domain == (if req.domain == "" then c.domain else req.domain)
      && (c.appProtocol != "" || req.protocol == "" ==> c'.appProtocol == c.appProtocol)
      && (c.appProtocol == "" && req.protocol != "" ==> c'.appProtocol == IdentifyAppProtocol(req))
      && (c'.protocol, c'.srcIP, c'.srcPort) == (c.protocol, c.srcIP, c.srcPort)
      && (c'.dstIP, c'.dstPort) == (c.dstIP, c.dstPort)
  {}

  /** After the lock is released a request counts as an extracted payload when extraction is on and the connection's
      protocol, or else the request's, is among the supported ones in any case; it counts as ICMP when that is logged;
      and it adds its bytes. */
  lemma PassingCounts(config: Config, s: Stats, req: Request, conn: ConnectionInfo)
    ensures
      var app := if conn.appProtocol == "" then IdentifyAppProtocol(req) else conn.appProtocol;
      var extracts := config.extractPayloads && app != ""
        && exists p :: p in config.supportedProtocols && RuleConditions.SameText(p, app);
      Observed(config, Extracted(config, s, req, conn), req)
      == s.(extractedPayloads := s.extractedPayloads + One(extracts),
            icmpPackets := s.icmpPackets + One(config.logICMP && req.protocol == "ICMP"),
            totalBytesObserved := s.totalBytesObserved + req.contentLength)
  {
    var app := if conn.appProtocol == "" then IdentifyAppProtocol(req) else conn.appProtocol;
    if p :| p in config.supportedProtocols && RuleConditions.SameText(p, app) {
      RuleConditions.LowerIff(p, app);
    }
    if i :| 0 <= i < |config.supportedProtocols| && ToLower(config.supportedProtocols[i]) == ToLower(app) {
      RuleConditions.LowerIff(config.supportedProtocols[i], app);
    }
  }

  // ---------------------------------------------------------------- every run

  /** The connections of a transport. */
  ghost function OfTransport(connections: map<string, ConnectionInfo>, name: string): set<string> {
    set k | k in connections && RuleConditions.SameText(connections[k].protocol, name)
  }

  ghost predicate TransportsCounted(t: Table) {
    && t.stats.tcpConnections == |OfTransport(t.connections, "TCP")|
    && t.stats.udpConnections == |OfTransport(t.connections, "UDP")|
  }

  lemma OpeningAdds(t: Table, req: Request, name: string)
    requires ConnectionKey(req) !in t.connections
    ensures |OfTransport(Tracked(t, req).connections, name)|
      == |OfTransport(t.connections, name)| + One(RuleConditions.SameText(req.protocol, name))
  {
    var (key, own) := (ConnectionKey(req), OfTransport(t.connections, name));
    OpeningCounts(t, req);
    assert OfTransport(Tracked(t, req).connections, name)
      == own + (if RuleConditions.SameText(req.protocol, name) then {key} else {});
    assert key !in own;
  }

  lemma TrackKeepsTransports(t: Table, req: Request)
    requires TransportsCounted(t)
    ensures TransportsCounted(Tracked(t, req))
  {
    if ConnectionKey(req) in t.connections {
      LaterCounts(t, req);
      assert OfTransport(Tracked(t, req).connections, "TCP") == OfTransport(t.connections, "TCP");
      assert OfTransport(Tracked(t, req).connections, "UDP") == OfTransport(t.connections, "UDP");
    } else {
      OpeningCounts(t, req);
      OpeningAdds(t, req, "TCP");
      OpeningAdds(t, req, "UDP");
    }
  }

  lemma {:induction false} RunKeepsTransports(config: Config, s: State, steps: seq<Step>)
    requires Valid(config, s, steps) && TransportsCounted(s.table)
    ensures TransportsCounted(Run(config, s, steps).table)
    decreases |steps|
  {
    if steps != [] {
      if steps[0].Track? {
        TrackKeepsTransports(s.table, steps[0].req);
      }
      RunKeepsTransports(config, Next(config, s, steps[0]), steps[1..]);
    }
  }

  /** In every state of every interleaving, the TCP and UDP counters are the numbers of connections in the table of
      that transport, spelt in any case. */
  lemma TransportsAreCounted(config: Config, steps: seq<Step>)
    requires Valid(config, State(EMPTY, map[]), steps)
    ensures
      var t := Run(config, State(EMPTY, map[]), steps).table;
      && t.stats.tcpConnections == |OfTransport(t.connections, "TCP")|
      && t.stats.udpConnections == |OfTransport(t.connections, "UDP")|
  {
    assert OfTransport(EMPTY.connections, "TCP") == {} && OfTransport(EMPTY.connections, "UDP") == {};
    RunKeepsTransports(config, State(EMPTY, map[]), steps);
  }
}
