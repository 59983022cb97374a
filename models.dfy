/**
 * The records the scanner passes around: port status and protocol tags, the
 * per-endpoint scan result and the run configuration. Constructor parameters
 * with `:=` carry the same defaults as the Python dataclasses.
 *
 * The probe payloads (TLS, QUIC, OS hints) are dictionaries in the scanner; here
 * each is a record with the dictionary's keys as fields, in simplified types:
 * tuples, nested dictionaries and values that may be None become text.
 */
module Models {
  import opened Wrappers

  datatype PortStatus = Open | Closed | Filtered | Unknown

  /** The enum member's value: its name in lower case. */
  function StatusValue(s: PortStatus): string
  {
    match s
    case Open => "open"
    case Closed => "closed"
    case Filtered => "filtered"
    case Unknown => "unknown"
  }

  datatype Protocol = Tcp | Udp | Http | Https | Quic

  function ProtocolValue(p: Protocol): string
  {
    match p
    case Tcp => "tcp"
    case Udp => "udp"
    case Http => "http"
    case Https => "https"
    case Quic => "quic"
  }

  /** The fields kept from the peer certificate. */
  datatype Certificate = Certificate(
    subject: string, issuer: string, version: string, serialNumber: string,
    notBefore: string, notAfter: string, extensions: seq<string>)

  /** The negotiated TLS parameters; `certificate` is absent when the peer sent none. */
  datatype TlsInfo = TlsInfo(
    version: string, cipher: string, compression: string,
    certificate: Option<Certificate>, alpnProtocol: string, sessionReused: bool)

  /** The outcome of a QUIC handshake attempt; `error` names the failure class. */
  datatype QuicInfo = QuicInfo(supported: bool, version: string, alpn: string, error: Option<string>)

  /** Socket options observed on an open connection, each possibly unavailable. */
  datatype OsGuess = OsGuess(ttl: Option<int>, windowSize: Option<int>)

  datatype ScanResult = ScanResult(
    target: string,
    port: int,
    status: PortStatus,
    protocol: Protocol,
    banner: Option<string> := None,
    tlsInfo: Option<TlsInfo> := None,
    quicInfo: Option<QuicInfo> := None,
    osGuess: Option<OsGuess> := None,
    responseTime: Option<real> := None,
    service: Option<string> := None,
    timestamp: Option<real> := None)

  datatype ScanConfig = ScanConfig(
    timeout: real := 1.0,
    concurrency: int := 500,
    bannerGrab: bool := true,
    tlsScan: bool := false,
    quicScan: bool := false,
    serviceDetection: bool := false,
    resolveDns: bool := false,
    delay: real := 0.0,
    proxy: Option<string> := None,
    excludedPorts: Option<seq<int>> := None,
    osFingerprinting: bool := false)

  /** The four statuses have four distinct lower-case values. */
  lemma StatusValues()
    ensures forall s: PortStatus :: StatusValue(s) in ["open", "closed", "filtered", "unknown"]
    ensures forall s, t: PortStatus :: StatusValue(s) == StatusValue(t) ==> s == t
  {
  }

  /** The five protocol tags have five distinct lower-case values. */
  lemma ProtocolValues()
    ensures forall p: Protocol :: ProtocolValue(p) in ["tcp", "udp", "http", "https", "quic"]
    ensures forall p, q: Protocol :: ProtocolValue(p) == ProtocolValue(q) ==> p == q
  {
  }

  /** A result built from the four required fields has every optional field absent. */
  lemma ResultDefaults(target: string, port: int, status: PortStatus, protocol: Protocol)
    ensures var r := ScanResult(target, port, status, protocol);
            r.banner == None && r.tlsInfo == None && r.quicInfo == None && r.osGuess == None
            && r.responseTime == None && r.service == None && r.timestamp == None
  {
  }

  /** The default configuration. */
  lemma ConfigDefaults()
    ensures var c := ScanConfig();
            c.timeout == 1.0 && c.concurrency == 500 && c.delay == 0.0
            && c.bannerGrab && !c.tlsScan && !c.quicScan && !c.serviceDetection
            && !c.resolveDns && !c.osFingerprinting
            && c.proxy == None && c.excludedPorts == None
  {
  }
}
