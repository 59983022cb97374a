/**
 * `AsyncPortScanner` from scanner/core.py. The scanner probes every
 * (target, port) pair and keeps the open ones. What it learns from the
 * network is an `Environment` of functions: name lookup, whether a
 * connection completes, the event loop's clock and the four probes. The
 * concurrent tasks are modelled one after another, in the order `gather`
 * returns their results.
 */
module Core {
  import opened Wrappers
  import opened Strings
  import opened Ipv4
  import opened Models
  import opened Utils

  /** What the scanner observes of the outside world, each as a function of its arguments. */
  datatype Environment = Environment(
    lookup: string -> Option<string>,                  // first address `getaddrinfo` reports; None on `gaierror`
    connects: (string, int, real) -> bool,             // `open_connection` completes within the timeout
    clock: (string, int) -> real,                      // the event loop's time once the port is found open
    grabBanner: (string, int, real) -> Option<string>, // `http.grab_banner`
    scanTls: (string, int, real) -> Option<TlsInfo>,   // `tls.scan_tls`
    scanQuic: (string, int, real) -> Option<QuicInfo>, // `quic.scan_quic`
    fingerprint: (string, int) -> Option<OsGuess>)     // `os_fingerprint.passive_os_fingerprint`

  /** The ports on which a TLS handshake is attempted. */
  const TlsPorts: seq<int> := [443, 8443, 993, 995]

  /** The ports on which a QUIC handshake is attempted. */
  const QuicPorts: seq<int> := [443, 80]

  /** A proxy is used when one is configured and the text is not empty. */
  predicate ProxyEnabled(proxy: Option<string>)
  {
    proxy.Some? && |proxy.value| > 0
  }

  /** `target.replace('.', '').isdigit()`, for ASCII digits. */
  predicate IsDottedDecimal(target: string)
  {
    IsDigits(Remove(target, '.'))
  }

  // ===========================================================================
  // One endpoint
  // ===========================================================================

  /** `resolve_domain`: the first address the lookup reports, or the name itself when the lookup fails. */
  function ResolveDomain(env: Environment, domain: string): string
  {
    match env.lookup(domain)
    case Some(address) => address
    case None => domain
  }

  /** The host actually probed: with name resolution on, a target that is not all digits and dots is resolved. */
  function ResolveTarget(config: ScanConfig, env: Environment, target: string): (host: string)
    ensures host != target ==> config.resolveDns && !IsDottedDecimal(target) && env.lookup(target) == Some(host)
  {
    if config.resolveDns && !IsDottedDecimal(target) then ResolveDomain(env, target) else target
  }

  /** The probed host is the looked-up address exactly when resolution applies and the lookup succeeds; otherwise the target itself. */
  lemma ResolveTargetCases(config: ScanConfig, env: Environment, target: string)
    ensures config.resolveDns && !IsDottedDecimal(target) && env.lookup(target).Some? ==>
              ResolveTarget(config, env, target) == env.lookup(target).value
    ensures !config.resolveDns || IsDottedDecimal(target) || env.lookup(target).None? ==>
              ResolveTarget(config, env, target) == target
  {
  }

  /**
   * `_check_port`: true only when a direct connection completes within the
   * timeout. Every failure, the timeout included, gives false; so does every
   * proxied attempt, whose response cannot be unpacked into a reader and a writer.
   */
  predicate PortIsOpen(config: ScanConfig, env: Environment, host: string, port: int)
  {
    !ProxyEnabled(config.proxy) && env.connects(host, port, config.timeout)
  }

  /** `_scan_port`: the result for one endpoint, with each probe run only where its flag and port set allow. */
  function PortResult(config: ScanConfig, env: Environment, target: string, port: int): (r: ScanResult)
    ensures r.target == ResolveTarget(config, env, target) && r.port == port && r.protocol == Tcp
    ensures r.status == Open || r.status == Closed
    ensures r.status == Open <==> PortIsOpen(config, env, r.target, port)
    ensures r.status == Closed ==>
              r.banner == None && r.tlsInfo == None && r.quicInfo == None && r.osGuess == None && r.timestamp == None
    ensures r.status == Open ==> r.timestamp == Some(env.clock(r.target, port))
    ensures r.banner.Some? ==> config.bannerGrab
    ensures r.tlsInfo.Some? ==> config.tlsScan && port in TlsPorts
    ensures r.quicInfo.Some? ==> config.quicScan && port in QuicPorts
    ensures r.osGuess.Some? ==> config.osFingerprinting
    ensures r.responseTime == None && r.service == None
  {
    var host := ResolveTarget(config, env, target);
    if !PortIsOpen(config, env, host, port) then
      ScanResult(host, port, Closed, Tcp)
    else
      ScanResult(host, port, Open, Tcp,
        banner := if config.bannerGrab then env.grabBanner(host, port, config.timeout) else None,
        tlsInfo := if config.tlsScan && port in TlsPorts then env.scanTls(host, port, config.timeout) else None,
        quicInfo := if config.quicScan && port in QuicPorts then env.scanQuic(host, port, config.timeout) else None,
        osGuess := if config.osFingerprinting then env.fingerprint(host, port) else None,
        timestamp := Some(env.clock(host, port)))
  }

  // ===========================================================================
  // The whole scan
  // ===========================================================================

  /** One target paired with each port, in port order. */
  function Row(target: string, ports: seq<int>): seq<(string, int)>
  {
    seq(|ports|, j requires 0 <= j < |ports| => (target, ports[j]))
  }

  /** The endpoints in the order the tasks are created: target by target, each with every port. */
  function WorkList(targets: seq<string>, ports: seq<int>): seq<(string, int)>
    decreases |targets|
  {
    if |targets| == 0 then []
    else WorkList(targets[..|targets| - 1], ports) + Row(targets[|targets| - 1], ports)
  }

  /** The result of every endpoint, in the order of the endpoints. */
  function RunAll(config: ScanConfig, env: Environment, work: seq<(string, int)>): seq<ScanResult>
  {
    seq(|work|, k requires 0 <= k < |work| => PortResult(config, env, work[k].0, work[k].1))
  }

  /** `[r for r in results if r.status == PortStatus.OPEN]`. */
  function OpenOnly(results: seq<ScanResult>): seq<ScanResult>
    decreases |results|
  {
    if |results| == 0 then []
    else
      var last := results[|results| - 1];
      OpenOnly(results[..|results| - 1]) + (if last.status == Open then [last] else [])
  }

  /** What `scan(targets, ports)` returns. */
  function ScanResults(config: ScanConfig, env: Environment, targets: seq<string>, ports: seq<int>): seq<ScanResult>
  {
    OpenOnly(RunAll(config, env, WorkList(targets, ports)))
  }

  // ===========================================================================
  // The scanner object
  // ===========================================================================

  class Scanner {
    const config: ScanConfig
    const proxy: Option<string>

    /** The proxy is the configured one. */
    predicate Valid()
    {
      proxy == config.proxy
    }

    constructor (config: ScanConfig)
      ensures this.config == config && Valid()
    {
      this.config := config;
      proxy := config.proxy;
    }

    /** `_check_port`. */
    method CheckPort(env: Environment, host: string, port: int) returns (isOpen: bool)
      requires Valid()
      ensures isOpen == PortIsOpen(config, env, host, port)
    {
      if ProxyEnabled(proxy) {
        // the proxied response is not a (reader, writer) pair: unpacking it raises
        isOpen := false;
      } else {
        isOpen := env.connects(host, port, config.timeout);
      }
    }

    /** `_scan_port`, with name resolution as intended (see `ScanPortAsWritten`). */
    method ScanPort(env: Environment, target: string, port: int) returns (result: ScanResult)
      requires Valid()
      ensures result == PortResult(config, env, target, port)
    {
      var host := target;
      if config.resolveDns && !IsDottedDecimal(host) {
        host := ResolveDomain(env, host);
      }
      var isOpen := CheckPort(env, host, port);
      if !isOpen {
        return ScanResult(host, port, Closed, Tcp);
      }
      result := ScanResult(host, port, Open, Tcp, timestamp := Some(env.clock(host, port)));
      if config.bannerGrab {
        result := result.(banner := env.grabBanner(host, port, config.timeout));
      }
      if config.tlsScan && port in TlsPorts {
        result := result.(tlsInfo := env.scanTls(host, port, config.timeout));
      }
      if config.quicScan && port in QuicPorts {
        result := result.(quicInfo := env.scanQuic(host, port, config.timeout));
      }
      if config.osFingerprinting {
        result := result.(osGuess := env.fingerprint(host, port));
      }
    }

    /** `scan`: build the tasks target by target, run them, keep the open results. */
    method Scan(env: Environment, targets: seq<string>, ports: seq<int>) returns (results: seq<ScanResult>)
      requires Valid()
      ensures results == ScanResults(config, env, targets, ports)
    {
      var tasks := BuildTasks(targets, ports);
      var gathered := Gather(env, tasks);
      results := KeepOpen(gathered);
    }

    /** `asyncio.gather(*tasks)`: every task's result, in task order. */
    method Gather(env: Environment, tasks: seq<(string, int)>) returns (gathered: seq<ScanResult>)
      requires Valid()
      ensures gathered == RunAll(config, env, tasks)
    {
      gathered := [];
      for k := 0 to |tasks|
        invariant gathered == RunAll(config, env, tasks[..k])
      {
        var r := ScanPort(env, tasks[k].0, tasks[k].1);
        gathered := gathered + [r];
      }
      assert tasks[..|tasks|] == tasks;
    }
  }

  /** The nested loops of `scan`: one task per target and port, target by target. */
  method BuildTasks(targets: seq<string>, ports: seq<int>) returns (tasks: seq<(string, int)>)
    ensures tasks == WorkList(targets, ports)
  {
    tasks := [];
    for i := 0 to |targets|
      invariant tasks == WorkList(targets[..i], ports)
    {
      for j := 0 to |ports|
        invariant tasks == WorkList(targets[..i], ports) + Row(targets[i], ports[..j])
      {
        assert Row(targets[i], ports[..j + 1]) == Row(targets[i], ports[..j]) + [(targets[i], ports[j])];
        tasks := tasks + [(targets[i], ports[j])];
      }
      assert targets[..i + 1][..i] == targets[..i];
      assert ports[..|ports|] == ports;
    }
    assert targets[..|targets|] == targets;
  }

  /** `[r for r in results if r.status == PortStatus.OPEN]`. */
  method KeepOpen(gathered: seq<ScanResult>) returns (results: seq<ScanResult>)
    ensures results == OpenOnly(gathered)
  {
    results := [];
    for k := 0 to |gathered|
      invariant results == OpenOnly(gathered[..k])
    {
      assert gathered[..k + 1][..k] == gathered[..k];
      if gathered[k].status == Open {
        results := results + [gathered[k]];
      } else {
        assert results + [] == results;
      }
    }
    assert gathered[..|gathered|] == gathered;
  }

  // ===========================================================================
  // What the scan promises
  // ===========================================================================

  /** There is one task per target and port. */
  lemma {:induction false} WorkListLength(targets: seq<string>, ports: seq<int>)
    ensures |WorkList(targets, ports)| == |targets| * |ports|
    decreases |targets|
  {
    var n := |targets|;
    if n > 0 {
      WorkListLength(targets[..n - 1], ports);
      ProductStep(n, |ports|);
    }
  }

  lemma ProductStep(n: nat, p: nat)
    requires n > 0
    ensures (n - 1) * p + p == n * p
  {
  }

  /** Endpoint `(targets[i], ports[j])` is task number `i * |ports| + j`: target-major order. */
  lemma {:induction false} WorkListIndex(targets: seq<string>, ports: seq<int>, i: int, j: int)
    requires 0 <= i < |targets| && 0 <= j < |ports|
    ensures i * |ports| + j < |WorkList(targets, ports)|
    ensures WorkList(targets, ports)[i * |ports| + j] == (targets[i], ports[j])
    decreases |targets|
  {
    var n := |targets|;
    var init := targets[..n - 1];
    var w := WorkList(init, ports);
    WorkListLength(init, ports);
    if i < n - 1 {
      WorkListIndex(init, ports, i, j);
      assert init[i] == targets[i];
    } else {
      assert i * |ports| + j == |w| + j;
      assert Row(targets[n - 1], ports)[j] == (targets[i], ports[j]);
    }
  }

  lemma {:induction false} WorkListAppend(xs: seq<string>, ys: seq<string>, ports: seq<int>)
    ensures WorkList(xs + ys, ports) == WorkList(xs, ports) + WorkList(ys, ports)
    decreases |ys|
  {
    if |ys| == 0 {
      assert xs + ys == xs;
    } else {
      var init := ys[..|ys| - 1];
      DropLastOfAppend(xs, ys);
      WorkListAppend(xs, init, ports);
    }
  }

  lemma {:induction false} OpenOnlyAppend(xs: seq<ScanResult>, ys: seq<ScanResult>)
    ensures OpenOnly(xs + ys) == OpenOnly(xs) + OpenOnly(ys)
    decreases |ys|
  {
    if |ys| == 0 {
      assert xs + ys == xs;
    } else {
      var init := ys[..|ys| - 1];
      DropLastOfAppend(xs, ys);
      OpenOnlyAppend(xs, init);
    }
  }

  /** The kept results are exactly the open ones, each taken from the list. */
  lemma {:induction false} OpenOnlyMembers(results: seq<ScanResult>)
    ensures forall r :: r in OpenOnly(results) <==> r in results && r.status == Open
    ensures |OpenOnly(results)| <= |results|
    decreases |results|
  {
    if |results| > 0 {
      OpenOnlyMembers(results[..|results| - 1]);
      assert results == results[..|results| - 1] + [results[|results| - 1]];
    }
  }

  /** `scan` returns only open results, each the result of some endpoint of the cartesian product. */
  lemma ScanSound(config: ScanConfig, env: Environment, targets: seq<string>, ports: seq<int>)
    ensures forall r :: r in ScanResults(config, env, targets, ports) ==>
              r.status == Open
              && exists i, j :: 0 <= i < |targets| && 0 <= j < |ports| && r == PortResult(config, env, targets[i], ports[j])
  {
    var all := RunAll(config, env, WorkList(targets, ports));
    OpenOnlyMembers(all);
    forall r | r in ScanResults(config, env, targets, ports)
      ensures exists i, j :: 0 <= i < |targets| && 0 <= j < |ports| && r == PortResult(config, env, targets[i], ports[j])
    {
      var k :| 0 <= k < |all| && all[k] == r;
      WorkListMember(targets, ports, k);
    }
  }

  /** Every endpoint found open is among the results of `scan`. */
  lemma ScanComplete(config: ScanConfig, env: Environment, targets: seq<string>, ports: seq<int>)
    ensures forall i, j :: 0 <= i < |targets| && 0 <= j < |ports| && PortResult(config, env, targets[i], ports[j]).status == Open ==>
              PortResult(config, env, targets[i], ports[j]) in ScanResults(config, env, targets, ports)
  {
    var all := RunAll(config, env, WorkList(targets, ports));
    OpenOnlyMembers(all);
    forall i, j | 0 <= i < |targets| && 0 <= j < |ports| && PortResult(config, env, targets[i], ports[j]).status == Open
      ensures PortResult(config, env, targets[i], ports[j]) in ScanResults(config, env, targets, ports)
    {
      WorkListIndex(targets, ports, i, j);
      assert all[i * |ports| + j] == PortResult(config, env, targets[i], ports[j]);
    }
  }

  /** There is at most one result per endpoint. */
  lemma ScanBound(config: ScanConfig, env: Environment, targets: seq<string>, ports: seq<int>)
    ensures |ScanResults(config, env, targets, ports)| <= |targets| * |ports|
  {
    WorkListLength(targets, ports);
    OpenOnlyMembers(RunAll(config, env, WorkList(targets, ports)));
  }

  /** Every task is some target paired with some port. */
  lemma {:induction false} WorkListMember(targets: seq<string>, ports: seq<int>, k: int)
    requires 0 <= k < |WorkList(targets, ports)|
    ensures exists i, j :: 0 <= i < |targets| && 0 <= j < |ports| && WorkList(targets, ports)[k] == (targets[i], ports[j])
    decreases |targets|
  {
    var n := |targets|;
    var init := targets[..n - 1];
    if k < |WorkList(init, ports)| {
      WorkListMember(init, ports, k);
      var i, j :| 0 <= i < |init| && 0 <= j < |ports| && WorkList(init, ports)[k] == (init[i], ports[j]);
      assert init[i] == targets[i];
    } else {
      var j := k - |WorkList(init, ports)|;
      assert WorkList(targets, ports)[k] == (targets[n - 1], ports[j]);
    }
  }

  /** Results come target by target: scanning `xs + ys` gives the results for `xs`, then those for `ys`. */
  lemma ScanTargetMajor(config: ScanConfig, env: Environment, xs: seq<string>, ys: seq<string>, ports: seq<int>)
    ensures ScanResults(config, env, xs + ys, ports)
         == ScanResults(config, env, xs, ports) + ScanResults(config, env, ys, ports)
  {
    WorkListAppend(xs, ys, ports);
    var a, b := WorkList(xs, ports), WorkList(ys, ports);
    assert RunAll(config, env, a + b) == RunAll(config, env, a) + RunAll(config, env, b);
    OpenOnlyAppend(RunAll(config, env, a), RunAll(config, env, b));
  }

  /** No port is ever found open through a proxy, so a proxied scan returns nothing. */
  lemma ProxyScanIsEmpty(config: ScanConfig, env: Environment, targets: seq<string>, ports: seq<int>)
    requires ProxyEnabled(config.proxy)
    ensures ScanResults(config, env, targets, ports) == []
  {
    var all := RunAll(config, env, WorkList(targets, ports));
    OpenOnlyNone(all);
  }

  lemma {:induction false} OpenOnlyNone(results: seq<ScanResult>)
    requires forall k :: 0 <= k < |results| ==> results[k].status != Open
    ensures OpenOnly(results) == []
    decreases |results|
  {
    if |results| > 0 {
      OpenOnlyNone(results[..|results| - 1]);
    }
  }

  /**
   * Ports 80 to 82 of one target with a listener on 81 only: the scan
   * returns exactly one result, the open port 81 of that target.
   */
  lemma OneListenerExample(config: ScanConfig, env: Environment, target: string)
    requires !config.resolveDns && !ProxyEnabled(config.proxy)
    requires forall p :: env.connects(target, p, config.timeout) <==> p == 81
    ensures ScanResults(config, env, [target], [80, 81, 82]) == [PortResult(config, env, target, 81)]
    ensures var r := PortResult(config, env, target, 81); r.target == target && r.port == 81 && r.status == Open
  {
    var rs := RunAll(config, env, WorkList([target], [80, 81, 82]));
    assert [target][..0] == [];
    assert WorkList([target], [80, 81, 82]) == [(target, 80), (target, 81), (target, 82)];
    assert rs == [PortResult(config, env, target, 80), PortResult(config, env, target, 81), PortResult(config, env, target, 82)];
    assert rs[0].status == Closed && rs[1].status == Open && rs[2].status == Closed;
    assert rs[..1][..0] == [];
    assert OpenOnly(rs[..1]) == [];
    assert rs[..2][..1] == rs[..1];
    assert OpenOnly(rs[..2]) == [rs[1]];
    assert rs[..2] == rs[..|rs| - 1];
  }

  // ---------------------------------------------------------------------------
  // Dotted-decimal targets are never resolved
  // ---------------------------------------------------------------------------

  predicate DigitsAndDots(s: string)
  {
    forall i :: 0 <= i < |s| ==> IsDigit(s[i]) || s[i] == '.'
  }

  lemma {:induction false} RemoveKeepsDigit(s: string, k: nat)
    requires k < |s| && IsDigit(s[k])
    ensures |Remove(s, '.')| > 0
    decreases |s|
  {
    if k > 0 && s[0] == '.' {
      RemoveKeepsDigit(s[1..], k - 1);
    }
  }

  /** Text of digits and dots with at least one digit is dotted decimal. */
  lemma DigitsAndDotsAreDotted(s: string, k: nat)
    requires DigitsAndDots(s) && k < |s| && IsDigit(s[k])
    ensures IsDottedDecimal(s)
  {
    RemoveKeepsDigit(s, k);
    var r := Remove(s, '.');
    forall i | 0 <= i < |r| ensures IsDigit(r[i]) {
      assert r[i] in s;
    }
  }

  lemma DottedJoin(x: string, y: string)
    requires DigitsAndDots(x) && DigitsAndDots(y)
    ensures DigitsAndDots(x + "." + y)
  {
  }

  /** A dotted-decimal target is probed as it is, whatever the configuration. */
  lemma DottedDecimalNeverResolved(config: ScanConfig, env: Environment, target: string)
    requires IsDottedDecimal(target)
    ensures ResolveTarget(config, env, target) == target
    ensures PortResult(config, env, target, 0).target == target
  {
  }

  /** Every printed IPv4 address is probed as it is. */
  lemma AddressesNeverResolved(config: ScanConfig, env: Environment, a: nat)
    ensures ResolveTarget(config, env, Format(a)) == Format(a)
  {
    QuadNeverResolved(config, env, NatToString(a / 16777216), NatToString(a / 65536 % 256),
                      NatToString(a / 256 % 256), NatToString(a % 256));
  }

  /** Four digit runs joined by dots are probed as they are. */
  lemma QuadNeverResolved(config: ScanConfig, env: Environment, o0: string, o1: string, o2: string, o3: string)
    requires IsDigits(o0) && IsDigits(o1) && IsDigits(o2) && IsDigits(o3)
    ensures var t := o0 + "." + o1 + "." + o2 + "." + o3;
            ResolveTarget(config, env, t) == t
  {
    DottedJoin(o2, o3);
    DottedJoin(o1, o2 + "." + o3);
    DottedJoin(o0, o1 + "." + o2 + "." + o3);
    var t := o0 + "." + o1 + "." + o2 + "." + o3;
    assert t == o0 + "." + (o1 + "." + (o2 + "." + o3));
    DigitsAndDotsAreDotted(t, 0);
  }

  /** Every address of a last-octet range with digit octets is probed as it is. */
  lemma RangeAddressNeverResolved(config: ScanConfig, env: Environment, p0: string, p1: string, p2: string, i: nat)
    requires IsDigits(p0) && IsDigits(p1) && IsDigits(p2)
    ensures ResolveTarget(config, env, RangeAddress(p0, p1, p2, i)) == RangeAddress(p0, p1, p2, i)
  {
    QuadNeverResolved(config, env, p0, p1, p2, NatToString(i));
  }

  /** The targets `parse_targets` expands from a last-octet range or a network are never resolved. */
  lemma ExpandedTargetsNeverResolved(config: ScanConfig, env: Environment, s: string)
    requires ExpandTargets(s).Ok? && (MatchesDashRange(s) || '/' in s)
    ensures forall t :: t in ExpandTargets(s).value ==> ResolveTarget(config, env, t) == t
  {
    if '-' in s && MatchesDashRange(s) {
      DashTargetsNeverResolved(config, env, s);
    } else {
      assert '/' in s by {
        if '-' !in s && MatchesDashRange(s) {
          var w := WithoutFinalNewline(s);
          assert '-' !in w by {
            if w != s {
              assert s == w + ['\n'];
            }
          }
          SplitWithout(w, '-');
        }
      }
      NetworkTargetsNeverResolved(config, env, s);
    }
  }

  /** A last-octet range expands to targets that are never resolved. */
  lemma DashTargetsNeverResolved(config: ScanConfig, env: Environment, s: string)
    requires '-' in s && MatchesDashRange(s)
    ensures ExpandTargets(s).Ok?
    ensures forall t :: t in ExpandTargets(s).value ==> ResolveTarget(config, env, t) == t
  {
    var halves := Split(WithoutFinalNewline(s), '-');
    var octets := Split(halves[0], '.');
    OctetRangeNeverResolved(config, env, octets[0], octets[1], octets[2], DigitsValue(octets[3]), DigitsValue(halves[1]));
  }

  /** Text with '/' that parses as a network expands to targets that are never resolved. */
  lemma NetworkTargetsNeverResolved(config: ScanConfig, env: Environment, s: string)
    requires '/' in s && ParseNetwork(s).Some?
    ensures ExpandTargets(s).Ok?
    ensures forall t :: t in ExpandTargets(s).value ==> ResolveTarget(config, env, t) == t
  {
    var n := ParseNetwork(s).value;
    NetworkExpansion(s, n);
    HostTextsNeverResolved(config, env, Hosts(n));
  }

  /** No address of a last-octet range with digit octets is resolved. */
  lemma OctetRangeNeverResolved(config: ScanConfig, env: Environment, p0: string, p1: string, p2: string, first: nat, last: int)
    requires IsDigits(p0) && IsDigits(p1) && IsDigits(p2)
    ensures forall t :: t in OctetRange(p0, p1, p2, first, last) ==> ResolveTarget(config, env, t) == t
  {
    var ts := OctetRange(p0, p1, p2, first, last);
    forall t | t in ts ensures ResolveTarget(config, env, t) == t {
      var k :| 0 <= k < |ts| && ts[k] == t;
      RangeAddressNeverResolved(config, env, p0, p1, p2, first + k);
    }
  }

  /** No printed host address is resolved. */
  lemma HostTextsNeverResolved(config: ScanConfig, env: Environment, hosts: seq<nat>)
    ensures forall t :: t in AddressTexts(hosts) ==> ResolveTarget(config, env, t) == t
  {
    var ts := AddressTexts(hosts);
    forall t | t in ts ensures ResolveTarget(config, env, t) == t {
      var k :| 0 <= k < |ts| && ts[k] == t;
      AddressesNeverResolved(config, env, hosts[k]);
    }
  }

  // ===========================================================================
  // Name resolution as written
  // ===========================================================================

  /** What escapes `scan` as written: calling the name `resolve_domain`, which the module never imports. */
  datatype ScanError = NameError(name: string)

  /** `_scan_port` as written: the resolution branch raises before any probe. */
  function ScanPortAsWritten(config: ScanConfig, env: Environment, target: string, port: int): (r: Result<ScanResult, ScanError>)
    ensures r.Err? <==> config.resolveDns && !IsDottedDecimal(target)
    ensures r.Ok? ==> r.value == PortResult(config, env, target, port)
  {
    if config.resolveDns && !IsDottedDecimal(target) then Err(NameError("resolve_domain"))
    else Ok(PortResult(config, env, target, port))
  }

  /** `scan` as written: `gather` re-raises the first task's error, otherwise the open results. */
  function ScanAsWritten(config: ScanConfig, env: Environment, targets: seq<string>, ports: seq<int>): Result<seq<ScanResult>, ScanError>
  {
    var w := WorkList(targets, ports);
    if exists k :: 0 <= k < |w| && ScanPortAsWritten(config, env, w[k].0, w[k].1).Err?
    then Err(NameError("resolve_domain"))
    else Ok(ScanResults(config, env, targets, ports))
  }

  /** With name resolution on, one host name and one port make the scan as written raise. */
  lemma ScanAsWrittenRaises(config: ScanConfig, env: Environment, targets: seq<string>, ports: seq<int>, i: int)
    requires config.resolveDns && 0 <= i < |targets| && !IsDottedDecimal(targets[i]) && |ports| > 0
    ensures ScanAsWritten(config, env, targets, ports) == Err(NameError("resolve_domain"))
  {
    WorkListIndex(targets, ports, i, 0);
  }

  /** The input that shows it: `example.com`, port 80, with name resolution on. */
  lemma HostNameRaisesAsWritten(config: ScanConfig, env: Environment)
    requires config.resolveDns
    ensures ScanAsWritten(config, env, ["example.com"], [80]).Err?
  {
    assert Remove("example.com", '.')[0] == 'e';
    ScanAsWrittenRaises(config, env, ["example.com"], [80], 0);
  }

  /** With resolution off, or only dotted-decimal targets, the scan as written agrees with the intended one. */
  lemma ScanAsWrittenAgrees(config: ScanConfig, env: Environment, targets: seq<string>, ports: seq<int>)
    requires !config.resolveDns || forall i :: 0 <= i < |targets| ==> IsDottedDecimal(targets[i])
    ensures ScanAsWritten(config, env, targets, ports) == Ok(ScanResults(config, env, targets, ports))
  {
    var w := WorkList(targets, ports);
    forall k | 0 <= k < |w| ensures ScanPortAsWritten(config, env, w[k].0, w[k].1).Ok? {
      WorkListMember(targets, ports, k);
    }
  }

  /** As intended, a host name is probed at the address its lookup reports. */
  lemma HostNameResolved(config: ScanConfig, env: Environment, name: string, port: int, address: string)
    requires config.resolveDns && !IsDottedDecimal(name) && env.lookup(name) == Some(address)
    ensures PortResult(config, env, name, port).target == address
    ensures ScanResults(config, env, [name], [port])
              == (if PortIsOpen(config, env, address, port) then [PortResult(config, env, name, port)] else [])
    ensures forall r :: r in ScanResults(config, env, [name], [port]) ==> r.target == address
  {
    var empty: seq<string> := [];
    assert [name][..0] == empty;
    assert WorkList([name], [port]) == [(name, port)];
    var rs := RunAll(config, env, [(name, port)]);
    assert rs == [PortResult(config, env, name, port)];
    var none: seq<ScanResult> := [];
    assert rs[..0] == none;
    assert OpenOnly(rs[..0]) == none;
    var r := PortResult(config, env, name, port);
    assert r.target == address;
    assert r.status == Open <==> PortIsOpen(config, env, address, port);
    assert OpenOnly(rs) == (if r.status == Open then [r] else []);
    ScanSound(config, env, [name], [port]);
  }
}
