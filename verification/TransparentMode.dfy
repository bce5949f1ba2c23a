/** Transparent mode: connections are tracked and counted, traffic passes unmodified. */
module TransparentMode {
  import opened NetworkRequest
  import opened Decimal
  import opened Sums

  datatype Config = Config(
    logICMP: bool, extractPayloads: bool, supportedProtocols: seq<string>)

  datatype ConnectionInfo = ConnectionInfo(
    protocol: string, appProtocol: string, srcIP: string, srcPort: int, dstIP: string, dstPort: int,
    domain: string, bytesSent: int)

  datatype Stats = Stats(
    totalConnections: int, tcpConnections: int, udpConnections: int, icmpPackets: int, totalBytesObserved: int,
    protocolBreakdown: map<string, int>, extractedPayloads: int, unknownProtocols: int)

  datatype Table = Table(connections: map<string, ConnectionInfo>, stats: Stats)

  const EMPTY := Table(map[], Stats(0, 0, 0, 0, 0, map[], 0, 0))

  // ---------------------------------------------------------------- classification

  function PortProtocol(port: int): string {
    match port
    case 80 => "HTTP"
    case 443 => "HTTPS"
    case 53 => "DNS"
    case 25 => "SMTP"
    case 587 => "SMTP"
    case 465 => "SMTPS"
    case 21 => "FTP"
    case 22 => "SSH"
    case 110 => "POP3"
    case 143 => "IMAP"
    case _ => ""
  }

  function IdentifyAppProtocol(req: Request): string {
    var upper := ToUpper(req.protocol);
    if upper in ["HTTP", "HTTPS", "DNS", "SMTP", "FTP"] then upper
    else if PortProtocol(req.port) != "" then PortProtocol(req.port)
    else if |req.body| < 4 then ""
    else
      var prefix := req.body[..4];
      if prefix in ["GET ", "POST", "PUT ", "HEAD"] then "HTTP"
      else if prefix in ["EHLO", "HELO", "MAIL"] then "SMTP"
      else if prefix in ["USER", "PASS", "RETR"] then "FTP"
      else ""
  }

  predicate IsProtocolSupported(config: Config, protocol: string) {
    protocol != ""
    && exists i :: 0 <= i < |config.supportedProtocols| && ToLower(config.supportedProtocols[i]) == ToLower(protocol)
  }

  // ---------------------------------------------------------------- tracking

  function ConnectionKey(req: Request): string {
    req.sourceIP + ":" + Itoa(req.sourcePort) + "->" + req.ip + ":" + Itoa(req.port) + "/" + req.protocol
  }

  function Updated(conn: ConnectionInfo, req: Request): ConnectionInfo {
    var conn := conn.(bytesSent := conn.bytesSent + req.contentLength,
                      domain := if req.domain != "" then req.domain else conn.domain);
    if req.protocol != "" && conn.appProtocol == "" then conn.(appProtocol := IdentifyAppProtocol(req)) else conn
  }

  function Opened(req: Request): ConnectionInfo {
    ConnectionInfo(req.protocol, IdentifyAppProtocol(req), req.sourceIP, req.sourcePort, req.ip, req.port,
                   req.domain, req.contentLength)
  }

  /** Counts a new connection by transport and by application protocol. */
  function CountNew(s: Stats, req: Request, app: string): Stats {
    var s := s.(totalConnections := s.totalConnections + 1);
    var s := if ToUpper(req.protocol) == "TCP" then s.(tcpConnections := s.tcpConnections + 1)
             else if ToUpper(req.protocol) == "UDP" then s.(udpConnections := s.udpConnections + 1)
             else s;
    if app == "" then s.(unknownProtocols := s.unknownProtocols + 1)
    else s.(protocolBreakdown :=
      s.protocolBreakdown[app := (if app in s.protocolBreakdown then s.protocolBreakdown[app] else 0) + 1])
  }

  /** The part of a request that runs under the connection lock. */
  function Tracked(t: Table, req: Request): Table {
    var key := ConnectionKey(req);
    if key in t.connections then t.(connections := t.connections[key := Updated(t.connections[key], req)])
    else Table(t.connections[key := Opened(req)], CountNew(t.stats, req, IdentifyAppProtocol(req)))
  }

  /** Whether a payload is extracted for the request, given the connection it belongs to. */
  predicate Extracts(config: Config, req: Request, conn: ConnectionInfo) {
    config.extractPayloads
    && IsProtocolSupported(config, if conn.appProtocol == "" then IdentifyAppProtocol(req) else conn.appProtocol)
  }

  function Extracted(config: Config, s: Stats, req: Request, conn: ConnectionInfo): Stats {
    if Extracts(config, req, conn) then s.(extractedPayloads := s.extractedPayloads + 1) else s
  }

  /** The counters updated after the lock is released. */
  function Observed(config: Config, s: Stats, req: Request): Stats {
    s.(icmpPackets := s.icmpPackets + (if config.logICMP && req.protocol == "ICMP" then 1 else 0),
       totalBytesObserved := s.totalBytesObserved + req.contentLength)
  }

  class TransparentModeHandler {
    const config: Config
    var table: Table

    constructor (config: Config)
      ensures this.config == config && table == EMPTY
    {
      this.config := config;
      table := EMPTY;
    }

    method TrackConnection(req: Request) returns (conn: ConnectionInfo)
      modifies this
      ensures table == Tracked(old(table), req)
      ensures ConnectionKey(req) in table.connections && conn == table.connections[ConnectionKey(req)]
    {
      var key := ConnectionKey(req);
      if key in table.connections {
        conn := table.connections[key];
        conn := conn.(bytesSent := conn.bytesSent + req.contentLength);
        if req.domain != "" {
          conn := conn.(domain := req.domain);
        }
        if req.protocol != "" && conn.appProtocol == "" {
          var app := IdentifyAppProtocol(req);
          if app != "" {
            conn := conn.(appProtocol := app);
          }
        }
        table := table.(connections := table.connections[key := conn]);
      } else {
        conn := Opened(req);
        table := Table(table.connections[key := conn], CountNew(table.stats, req, conn.appProtocol));
      }
    }

    /** One request with nothing in between: it never fails and answers that the traffic passes. */
    method HandleRequest(req: Request) returns (source: string)
      modifies this
      ensures source == "transparent_passthrough"
      ensures
        var t := Tracked(old(table), req);
        ConnectionKey(req) in t.connections
        && table == t.(stats :=
          Observed(config, Extracted(config, t.stats, req, t.connections[ConnectionKey(req)]), req))
    {
      var conn := TrackConnection(req);
      table := table.(stats := Extracted(config, table.stats, req, conn));
      table := table.(stats := Observed(config, table.stats, req));
      return "transparent_passthrough";
    }
  }

  // ---------------------------------------------------------------- conservation

  /** Requests that run at once: `open` holds those that are past the lock but have not added their bytes yet. */
  datatype State = State(table: Table, open: map<nat, Request>)

  /** The separately atomic parts of a request. */
  datatype Step =
    | Track(request: nat, req: Request)
    | Extract(request: nat)
    | Finish(request: nat)

  predicate Enabled(s: State, step: Step) {
    match step
    case Track(r, _) => r !in s.open
    case Extract(r) => r in s.open && ConnectionKey(s.open[r]) in s.table.connections
    case Finish(r) => r in s.open
  }

  function Next(config: Config, s: State, step: Step): State
    requires Enabled(s, step)
  {
    match step
    case Track(r, req) => State(Tracked(s.table, req), s.open[r := req])
    case Extract(r) =>
      s.(table := s.table.(stats :=
        Extracted(config, s.table.stats, s.open[r], s.table.connections[ConnectionKey(s.open[r])])))
    case Finish(r) => State(s.table.(stats := Observed(config, s.table.stats, s.open[r])), s.open - {r})
  }

  function OpenBytes(open: map<nat, Request>): map<nat, int> {
    map r | r in open :: open[r].contentLength
  }

  function BytesSent(connections: map<string, ConnectionInfo>): map<string, int> {
    map key | key in connections :: connections[key].bytesSent
  }

  ghost predicate Conserved(s: State) {
    var stats := s.table.stats;
    && stats.totalConnections == |s.table.connections|
    && Sum(stats.protocolBreakdown) + stats.unknownProtocols == stats.totalConnections
    && stats.totalBytesObserved + Sum(OpenBytes(s.open)) == Sum(BytesSent(s.table.connections))
  }

  lemma CountNewAddsOne(stats: Stats, req: Request, app: string)
    ensures
      var stats' := CountNew(stats, req, app);
      && stats'.totalConnections == stats.totalConnections + 1
      && stats'.totalBytesObserved == stats.totalBytesObserved
      && Sum(stats'.protocolBreakdown) + stats'.unknownProtocols
        == Sum(stats.protocolBreakdown) + stats.unknownProtocols + 1
  {
    SumUpdate(stats.protocolBreakdown, app,
      (if app in stats.protocolBreakdown then stats.protocolBreakdown[app] else 0) + 1);
  }

  lemma TrackAddsBytes(t: Table, req: Request)
    ensures Sum(BytesSent(Tracked(t, req).connections)) == Sum(BytesSent(t.connections)) + req.contentLength
    ensures |Tracked(t, req).connections| == |t.connections| + (if ConnectionKey(req) in t.connections then 0 else 1)
  {
    var (key, conns, conns') := (ConnectionKey(req), t.connections, Tracked(t, req).connections);
    SumUpdate(BytesSent(conns), key, conns'[key].bytesSent);
    assert BytesSent(conns') == BytesSent(conns)[key := conns'[key].bytesSent];
    assert conns' == conns[key := conns'[key]];
  }

  lemma TrackKeepsConserved(s: State, r: nat, req: Request)
    requires Conserved(s) && r !in s.open
    ensures Conserved(State(Tracked(s.table, req), s.open[r := req]))
  {
    SumUpdate(OpenBytes(s.open), r, req.contentLength);
    assert OpenBytes(s.open[r := req]) == OpenBytes(s.open)[r := req.contentLength];
    TrackAddsBytes(s.table, req);
    CountNewAddsOne(s.table.stats, req, IdentifyAppProtocol(req));
  }

  lemma StepKeepsConserved(config: Config, s: State, step: Step)
    requires Conserved(s) && Enabled(s, step)
    ensures Conserved(Next(config, s, step))
  {
    match step {
      case Track(r, req) => TrackKeepsConserved(s, r, req);
      case Extract(_) =>
      case Finish(r) =>
        SumRemove(OpenBytes(s.open), r);
        assert OpenBytes(s.open - {r}) == OpenBytes(s.open) - {r};
    }
  }

  ghost predicate Valid(config: Config, s: State, steps: seq<Step>)
    decreases |steps|
  {
    steps == [] || (Enabled(s, steps[0]) && Valid(config, Next(config, s, steps[0]), steps[1..]))
  }

  ghost function Run(config: Config, s: State, steps: seq<Step>): State
    requires Valid(config, s, steps)
    decreases |steps|
  {
    if steps == [] then s else Run(config, Next(config, s, steps[0]), steps[1..])
  }

  lemma {:induction false} RunKeepsConserved(config: Config, s: State, steps: seq<Step>)
    requires Conserved(s) && Valid(config, s, steps)
    ensures Conserved(Run(config, s, steps))
    decreases |steps|
  {
    if steps != [] {
      StepKeepsConserved(config, s, steps[0]);
      RunKeepsConserved(config, Next(config, s, steps[0]), steps[1..]);
    }
  }

  /** In every state of every interleaving the connections counted are those in the table, each counted under
      one protocol or as unknown even if it is identified later, and the bytes observed plus those of the open
      requests are the bytes sent on all connections. */
  lemma CountersConserve(config: Config, steps: seq<Step>)
    requires Valid(config, State(EMPTY, map[]), steps)
    ensures
      var s := Run(config, State(EMPTY, map[]), steps);
      && s.table.stats.totalConnections == |s.table.connections|
      && Sum(s.table.stats.protocolBreakdown) + s.table.stats.unknownProtocols == |s.table.connections|
      && s.table.stats.totalBytesObserved + Sum(OpenBytes(s.open)) == Sum(BytesSent(s.table.connections))
      && (s.open == map[] ==> s.table.stats.totalBytesObserved == Sum(BytesSent(s.table.connections)))
  {
    assert BytesSent(map[]) == map[] && OpenBytes(map[]) == map[];
    RunKeepsConserved(config, State(EMPTY, map[]), steps);
  }
}
