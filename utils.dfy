/**
 * `parse_targets` and `parse_ports` from scanner/utils.py: the expansion of
 * the target and port arguments into the lists the scanner iterates over.
 * Each is a method that builds its list the way the Python loop does, proved
 * equal to a specification function; the lemmas state what that expansion is.
 */
module Utils {
  import opened Wrappers
  import opened Strings
  import opened Ipv4

  /** What the two parsers raise. */
  datatype ParseError =
    | InvalidInteger(token: string)   // `int(token)` raises ValueError
    | UnpackError(part: string)       // `start, end = ...` received too many values
    | InvalidNetwork(spec: string)    // `ip_network` raises ValueError
    | Ipv6NotModelled(spec: string)   // the address part may be IPv6, which this model does not expand

  // ===========================================================================
  // parse_targets
  // ===========================================================================

  /** The text that the pattern's `$` anchors to: one final newline is allowed after it. */
  function WithoutFinalNewline(s: string): string
  {
    if |s| > 0 && s[|s| - 1] == '\n' then s[..|s| - 1] else s
  }

  /** `re.match(r'^\d+\.\d+\.\d+\.\d+-\d+$', s)`, for ASCII digits. */
  predicate MatchesDashRange(s: string)
  {
    var halves := Split(WithoutFinalNewline(s), '-');
    && |halves| == 2 && IsDigits(halves[1])
    && var octets := Split(halves[0], '.');
       |octets| == 4 && IsDigits(octets[0]) && IsDigits(octets[1])
       && IsDigits(octets[2]) && IsDigits(octets[3])
  }

  /** One address of a last-octet range: the first three octets as written, then `i` in decimal. */
  function RangeAddress(p0: string, p1: string, p2: string, i: int): string
  {
    p0 + "." + p1 + "." + p2 + "." + IntToString(i)
  }

  /** The addresses `p0.p1.p2.i` for `i` from `first` to `last` inclusive; none when `first > last`. */
  function OctetRange(p0: string, p1: string, p2: string, first: int, last: int): seq<string>
  {
    seq(if last >= first then last - first + 1 else 0, k => RangeAddress(p0, p1, p2, first + k))
  }

  /** The printed form of each address, in order. */
  function AddressTexts(hosts: seq<nat>): seq<string>
  {
    seq(|hosts|, k requires 0 <= k < |hosts| => Format(hosts[k]))
  }

  /** What `parse_targets(s)` returns, or the error it raises. */
  function ExpandTargets(s: string): Result<seq<string>, ParseError>
  {
    if '-' in s && MatchesDashRange(s) then
      var halves := Split(WithoutFinalNewline(s), '-');
      var octets := Split(halves[0], '.');
      Ok(OctetRange(octets[0], octets[1], octets[2], DigitsValue(octets[3]), DigitsValue(halves[1])))
    else if '/' in s then
      match ParseNetwork(s)
      case Some(n) => Ok(AddressTexts(Hosts(n)))
      case None => Err(if ':' in Split(s, '/')[0] then Ipv6NotModelled(s) else InvalidNetwork(s))
    else
      Ok([s])
  }

  /** What the code's own `split` and `int` calls see on a matching dash range. */
  lemma DashPieces(s: string)
    requires MatchesDashRange(s)
    ensures var w := Split(WithoutFinalNewline(s), '-');
            var halves := Split(s, '-');
            && |halves| == 2 && halves[0] == w[0]
            && |Split(halves[0], '.')| == 4
            && ParseInt(Split(halves[0], '.')[3]) == Some(DigitsValue(Split(w[0], '.')[3]))
            && ParseInt(halves[1]) == Some(DigitsValue(w[1]))
  {
    var w := WithoutFinalNewline(s);
    var pieces := Split(w, '-');
    if |s| > 0 && s[|s| - 1] == '\n' {
      assert s == w + ['\n'];
      SplitAppend(w, '\n', '-');
      ParseIntDigitsNewline(pieces[1]);
    } else {
      ParseIntDigits(pieces[1]);
    }
    ParseIntDigits(Split(pieces[0], '.')[3]);
  }

  lemma OctetRangeStep(p0: string, p1: string, p2: string, first: int, i: int)
    requires first <= i
    ensures OctetRange(p0, p1, p2, first, i) == OctetRange(p0, p1, p2, first, i - 1) + [RangeAddress(p0, p1, p2, i)]
  {
  }

  /** `parse_targets`: a last-octet range, a network in prefix notation, or the text itself. */
  method ParseTargets(targetInput: string) returns (r: Result<seq<string>, ParseError>)
    ensures r == ExpandTargets(targetInput)
  {
    if '-' in targetInput && MatchesDashRange(targetInput) {
      DashPieces(targetInput);
      var halves := Split(targetInput, '-');
      var baseParts := Split(halves[0], '.');
      var start := ParseInt(baseParts[3]).value;
      var end := ParseInt(halves[1]).value;
      var targets := RangeTargets(baseParts[0], baseParts[1], baseParts[2], start, end);
      return Ok(targets);
    } else if '/' in targetInput {
      var network := ParseNetwork(targetInput);
      if network.None? {
        var address := Split(targetInput, '/')[0];
        return Err(if ':' in address then Ipv6NotModelled(targetInput) else InvalidNetwork(targetInput));
      }
      var targets := HostTargets(Hosts(network.value));
      return Ok(targets);
    } else {
      return Ok([targetInput]);
    }
  }

  /** The loop of the range branch: one address per value from `start` to `end`. */
  method RangeTargets(p0: string, p1: string, p2: string, start: int, end: int) returns (targets: seq<string>)
    ensures targets == OctetRange(p0, p1, p2, start, end)
  {
    targets := [];
    var i := start;
    while i <= end
      invariant i == start || start < i <= end + 1
      invariant targets == OctetRange(p0, p1, p2, start, i - 1)
      decreases end - i
    {
      OctetRangeStep(p0, p1, p2, start, i);
      targets := targets + [RangeAddress(p0, p1, p2, i)];
      i := i + 1;
    }
    if start > end {
      assert |targets| == 0;
    }
  }

  /** `targets.extend(str(host) for host in network.hosts())`, from an empty list. */
  method HostTargets(hosts: seq<nat>) returns (targets: seq<string>)
    ensures targets == AddressTexts(hosts)
  {
    targets := [];
    for k := 0 to |hosts|
      invariant targets == AddressTexts(hosts[..k])
    {
      assert hosts[..k + 1] == hosts[..k] + [hosts[k]];
      targets := targets + [Format(hosts[k])];
    }
    assert hosts[..|hosts|] == hosts;
  }

  // ---------------------------------------------------------------------------
  // What parse_targets promises
  // ---------------------------------------------------------------------------

  lemma DigitsAndDotsLack(s: string, c: char)
    requires c != '.' && !IsDigit(c)
    requires forall k :: 0 <= k < |Split(s, '.')| ==> AllDigits(Split(s, '.')[k])
    ensures c !in s
  {
    var o := Split(s, '.');
    forall k | 0 <= k < |o| ensures c !in o[k] {
      DigitsLack(o[k], c);
    }
    SplitLacks(s, '.', c);
  }

  /** A last-octet range never contains '/', so it is never read as a network. */
  lemma DashRangeHasNoSlash(s: string)
    requires MatchesDashRange(s)
    ensures '/' !in s
  {
    var w := WithoutFinalNewline(s);
    var halves := Split(w, '-');
    DigitsAndDotsLack(halves[0], '/');
    DigitsLack(halves[1], '/');
    forall k | 0 <= k < |halves| ensures '/' !in halves[k] {
    }
    SplitLacks(w, '-', '/');
    if |s| > 0 && s[|s| - 1] == '\n' {
      assert s == w + ['\n'];
    }
  }

  /** Four digit runs joined by dots split back into those four runs, and hold no dash. */
  lemma QuadPieces(o0: string, o1: string, o2: string, o3: string)
    requires IsDigits(o0) && IsDigits(o1) && IsDigits(o2) && IsDigits(o3)
    ensures var base := o0 + "." + o1 + "." + o2 + "." + o3;
            Split(base, '.') == [o0, o1, o2, o3] && '-' !in base
  {
    DigitsLack(o0, '.');
    DigitsLack(o1, '.');
    DigitsLack(o2, '.');
    DigitsLack(o3, '.');
    SplitWithout(o0, '.');
    SplitWithout(o1, '.');
    SplitWithout(o2, '.');
    SplitWithout(o3, '.');
    var t2 := o2 + ['.'] + o3;
    var t1 := o1 + ['.'] + t2;
    assert o0 + "." + o1 + "." + o2 + "." + o3 == o0 + ['.'] + t1;
    SplitAt(o2, o3, '.');
    SplitAt(o1, t2, '.');
    SplitAt(o0, t1, '.');
    DigitsLack(o0, '-');
    DigitsLack(o1, '-');
    DigitsLack(o2, '-');
    DigitsLack(o3, '-');
  }

  /** Text without a dash, a dash and a digit run, possibly followed by one newline. */
  lemma DashText(base: string, e: string, newline: bool)
    requires '-' !in base && IsDigits(e)
    ensures var w := base + "-" + e;
            var s := w + (if newline then "\n" else "");
            WithoutFinalNewline(s) == w && Split(w, '-') == [base, e] && '-' in s
  {
    var w := base + "-" + e;
    var s := w + (if newline then "\n" else "");
    DigitsLack(e, '-');
    SplitWithout(base, '-');
    SplitWithout(e, '-');
    assert w == base + ['-'] + e;
    SplitAt(base, e, '-');
    if newline {
      assert s[..|s| - 1] == w;
    } else {
      assert s[|s| - 1] == e[|e| - 1];
    }
    assert s[|base|] == '-';
  }

  /**
   * A dotted quad followed by `-end` (and possibly one newline) expands to
   * `o0.o1.o2.i` for `i` from the value of `o3` up to `end` inclusive:
   * `max(0, end - start + 1)` addresses, with no check that they are octets.
   */
  lemma DashRangeExpansion(o0: string, o1: string, o2: string, o3: string, e: string, newline: bool)
    requires IsDigits(o0) && IsDigits(o1) && IsDigits(o2) && IsDigits(o3) && IsDigits(e)
    ensures var s := o0 + "." + o1 + "." + o2 + "." + o3 + "-" + e + (if newline then "\n" else "");
            ExpandTargets(s) == Ok(OctetRange(o0, o1, o2, DigitsValue(o3), DigitsValue(e)))
  {
    var base := o0 + "." + o1 + "." + o2 + "." + o3;
    QuadPieces(o0, o1, o2, o3);
    DashText(base, e, newline);
    var s := base + "-" + e + (if newline then "\n" else "");
    assert MatchesDashRange(s);
  }

  /**
   * The end of the range is not checked against 255: `a.b.c.s-e` yields
   * `e - s + 1` addresses whatever `e` is, the last one ending in `e`.
   */
  lemma UncheckedRangeEnd(o0: string, o1: string, o2: string, o3: string, e: string, newline: bool)
    requires IsDigits(o0) && IsDigits(o1) && IsDigits(o2) && IsDigits(o3) && IsDigits(e)
    requires DigitsValue(o3) <= DigitsValue(e)
    ensures var s := o0 + "." + o1 + "." + o2 + "." + o3 + "-" + e + (if newline then "\n" else "");
            var r := OctetRange(o0, o1, o2, DigitsValue(o3), DigitsValue(e));
            && ExpandTargets(s) == Ok(r) && |r| == DigitsValue(e) - DigitsValue(o3) + 1
            && r[DigitsValue(e) - DigitsValue(o3)] == RangeAddress(o0, o1, o2, DigitsValue(e))
  {
    DashRangeExpansion(o0, o1, o2, o3, e, newline);
  }

  /** An inverted range is empty, not an error. */
  lemma InvertedRange(o0: string, o1: string, o2: string, o3: string, e: string, newline: bool)
    requires IsDigits(o0) && IsDigits(o1) && IsDigits(o2) && IsDigits(o3) && IsDigits(e)
    requires DigitsValue(o3) > DigitsValue(e)
    ensures ExpandTargets(o0 + "." + o1 + "." + o2 + "." + o3 + "-" + e + (if newline then "\n" else "")) == Ok([])
  {
    DashRangeExpansion(o0, o1, o2, o3, e, newline);
    assert |OctetRange(o0, o1, o2, DigitsValue(o3), DigitsValue(e))| == 0;
  }

  /** With '/' present, a network that parses expands to the printed form of its hosts. */
  lemma NetworkExpansion(s: string, n: Network)
    requires '/' in s && ParseNetwork(s) == Some(n)
    ensures ExpandTargets(s) == Ok(AddressTexts(Hosts(n)))
  {
    if MatchesDashRange(s) {
      DashRangeHasNoSlash(s);
    }
  }

  /** The printed hosts of a network with prefix length at most 30: 2^(32 - prefix) - 2 of them, ends excluded. */
  lemma HostTexts(n: Network)
    requires ValidNetwork(n) && n.prefix <= 30
    ensures |AddressTexts(Hosts(n))| == Pow2(32 - n.prefix) - 2
    ensures Format(n.address) !in AddressTexts(Hosts(n))
    ensures Format(Broadcast(n)) !in AddressTexts(Hosts(n))
  {
    HostsCount(n);
    HostTextsExcludeEnds(n);
    var hs := Hosts(n);
    var texts := AddressTexts(hs);
    forall k | 0 <= k < |texts| ensures texts[k] != Format(n.address) && texts[k] != Format(Broadcast(n)) {
      assert hs[k] in hs;
    }
  }

  /**
   * An IPv4 address with a decimal prefix length p <= 30 expands to the
   * 2^(32 - p) - 2 usable hosts of its network, host bits cleared first: the
   * network and broadcast addresses are not among them.
   */
  lemma CidrExpansion(addr: string, a: nat, p: nat)
    requires ParseAddress(addr) == Some(a) && p <= 30
    ensures var n := Network(MaskHost(a, p), p);
            && ExpandTargets(addr + "/" + NatToString(p)) == Ok(AddressTexts(Hosts(n)))
            && |AddressTexts(Hosts(n))| == Pow2(32 - p) - 2
            && n.address <= a <= Broadcast(n)
            && Format(n.address) !in AddressTexts(Hosts(n))
            && Format(Broadcast(n)) !in AddressTexts(Hosts(n))
  {
    var s := addr + "/" + NatToString(p);
    var n := Network(MaskHost(a, p), p);
    ParseNetworkWithPrefix(addr, a, p);
    assert s[|addr|] == '/';
    NetworkExpansion(s, n);
    HostTexts(n);
  }

  /** Text that is neither a last-octet range nor contains '/' is returned as the only target. */
  lemma LiteralTarget(s: string)
    requires '/' !in s && !MatchesDashRange(s)
    ensures ExpandTargets(s) == Ok([s])
  {
  }

  /** Only the network branch can raise: text without '/' always expands. */
  lemma TargetsFailOnlyAsNetworks(s: string)
    ensures ExpandTargets(s).Err? ==> '/' in s && ParseNetwork(s).None?
  {
  }

  // ===========================================================================
  // parse_ports
  // ===========================================================================

  /** `excluded or []`. */
  function ExclusionList(excluded: Option<seq<int>>): seq<int>
  {
    match excluded
    case Some(ex) => ex
    case None => []
  }

  /** `int(token)`, raising on text it does not accept. */
  function IntToken(token: string): Result<int, ParseError>
  {
    match ParseInt(token)
    case Some(n) => Ok(n)
    case None => Err(InvalidInteger(token))
  }

  /**
   * `start, end = map(int, part.split('-'))`: the unpacking converts the first
   * two pieces, then converts a third one if there is one (which may raise in
   * turn) before it reports too many values.
   */
  function RangeBounds(part: string): Result<(int, int), ParseError>
  {
    var pieces := Split(part, '-');
    match IntToken(pieces[0])
    case Err(e) => Err(e)
    case Ok(first) =>
      if |pieces| < 2 then Err(UnpackError(part))
      else
        match IntToken(pieces[1])
        case Err(e) => Err(e)
        case Ok(last) =>
          if |pieces| == 2 then Ok((first, last))
          else
            match IntToken(pieces[2])
            case Err(e) => Err(e)
            case Ok(_) => Err(UnpackError(part))
  }

  /** `range(first, last + 1)`. */
  function Span(first: int, last: int): seq<int>
  {
    seq(if last >= first then last - first + 1 else 0, k => first + k)
  }

  /** The ports of `ps` that are not excluded, in their order. */
  function Without(ps: seq<int>, excluded: seq<int>): seq<int>
    decreases |ps|
  {
    if |ps| == 0 then []
    else Without(ps[..|ps| - 1], excluded) + (if ps[|ps| - 1] in excluded then [] else [ps[|ps| - 1]])
  }

  /** The expansion of one comma-free part: a range `a-b` or a single port. */
  function PartPorts(part: string, excluded: seq<int>): Result<seq<int>, ParseError>
  {
    if '-' in part then
      match RangeBounds(part)
      case Err(e) => Err(e)
      case Ok(bounds) => Ok(Without(Span(bounds.0, bounds.1), excluded))
    else
      match IntToken(part)
      case Err(e) => Err(e)
      case Ok(port) => Ok(if port in excluded then [] else [port])
  }

  /** Expanding results in order: the first error wins, otherwise the lists are concatenated. */
  function Then(first: Result<seq<int>, ParseError>, second: Result<seq<int>, ParseError>): Result<seq<int>, ParseError>
  {
    match first
    case Err(e) => Err(e)
    case Ok(ps) =>
      match second
      case Err(e) => Err(e)
      case Ok(qs) => Ok(ps + qs)
  }

  /** The parts' expansions concatenated in order; the first part that raises decides the error. */
  function PartsPorts(parts: seq<string>, excluded: seq<int>): Result<seq<int>, ParseError>
    decreases |parts|
  {
    if |parts| == 0 then Ok([])
    else Then(PartsPorts(parts[..|parts| - 1], excluded), PartPorts(parts[|parts| - 1], excluded))
  }

  /** What `parse_ports(s, excluded)` returns, or the error it raises. */
  function ExpandPorts(s: string, excluded: seq<int>): Result<seq<int>, ParseError>
  {
    if ',' in s then PartsPorts(Split(s, ','), excluded) else PartPorts(s, excluded)
  }

  lemma SpanStep(first: int, p: int)
    requires first <= p
    ensures Span(first, p) == Span(first, p - 1) + [p]
  {
  }

  lemma WithoutStep(ps: seq<int>, p: int, excluded: seq<int>)
    ensures Without(ps + [p], excluded) == Without(ps, excluded) + (if p in excluded then [] else [p])
  {
    assert (ps + [p])[..|ps|] == ps;
  }

  /** `ports.extend(p for p in range(first, last + 1) if p not in excluded)`: the ports it adds. */
  method RangeWithout(first: int, last: int, excluded: seq<int>) returns (ps: seq<int>)
    ensures ps == Without(Span(first, last), excluded)
  {
    ps := [];
    var p := first;
    while p <= last
      invariant p == first || first < p <= last + 1
      invariant ps == Without(Span(first, p - 1), excluded)
      decreases last - p
    {
      SpanStep(first, p);
      WithoutStep(Span(first, p - 1), p, excluded);
      if p !in excluded {
        ps := ps + [p];
      }
      p := p + 1;
    }
  }

  /** Once a prefix of the parts raises, so does the whole list, with the same error. */
  lemma {:induction false} ErrorPersists(parts: seq<string>, j: nat, excluded: seq<int>)
    requires j <= |parts|
    requires PartsPorts(parts[..j], excluded).Err?
    ensures PartsPorts(parts, excluded) == PartsPorts(parts[..j], excluded)
    decreases |parts| - j
  {
    if j < |parts| {
      assert parts[..j + 1][..j] == parts[..j];
      ErrorPersists(parts, j + 1, excluded);
    } else {
      assert parts[..j] == parts;
    }
  }

  /** `parse_ports`: a comma list of parts, a single range, or a single port, minus the exclusions. */
  method ParsePorts(portInput: string, excluded: Option<seq<int>>) returns (r: Result<seq<int>, ParseError>)
    ensures r == ExpandPorts(portInput, ExclusionList(excluded))
  {
    var ex := ExclusionList(excluded);
    var ports: seq<int> := [];
    if ',' in portInput {
      var parts := Split(portInput, ',');
      for i := 0 to |parts|
        invariant PartsPorts(parts[..i], ex) == Ok(ports)
      {
        assert parts[..i + 1][..i] == parts[..i];
        var step := AddPart(ports, parts[i], ex);
        if step.Err? {
          ErrorPersists(parts, i + 1, ex);
          return step;
        }
        ports := step.value;
      }
      assert parts[..|parts|] == parts;
      return Ok(ports);
    } else {
      r := AddPart(ports, portInput, ex);
      if r.Ok? {
        assert [] + PartPorts(portInput, ex).value == PartPorts(portInput, ex).value;
      }
    }
  }

  /**
   * The code that handles one part, in the loop and in the two comma-free
   * branches alike: a range's kept ports or the port itself are added to `ports`.
   */
  method AddPart(ports: seq<int>, part: string, ex: seq<int>) returns (r: Result<seq<int>, ParseError>)
    ensures r == Then(Ok(ports), PartPorts(part, ex))
  {
    if '-' in part {
      var bounds := RangeBounds(part);
      if bounds.Err? {
        return Err(bounds.error);
      }
      var more := RangeWithout(bounds.value.0, bounds.value.1, ex);
      return Ok(ports + more);
    } else {
      var port := IntToken(part);
      if port.Err? {
        return Err(port.error);
      }
      if port.value !in ex {
        return Ok(ports + [port.value]);
      }
      assert ports + [] == ports;
      return Ok(ports);
    }
  }

  // ---------------------------------------------------------------------------
  // What parse_ports promises
  // ---------------------------------------------------------------------------

  /** The comma test is only a shortcut: every input behaves as the list of its comma-separated parts. */
  lemma ExpandPortsAsParts(s: string, excluded: seq<int>)
    ensures ExpandPorts(s, excluded) == PartsPorts(Split(s, ','), excluded)
  {
    if ',' !in s {
      SplitWithout(s, ',');
      assert [s][..0] == [];
      if PartPorts(s, excluded).Ok? {
        assert [] + PartPorts(s, excluded).value == PartPorts(s, excluded).value;
      }
    }
  }

  lemma ThenAssociative(a: Result<seq<int>, ParseError>, b: Result<seq<int>, ParseError>, c: Result<seq<int>, ParseError>)
    ensures Then(Then(a, b), c) == Then(a, Then(b, c))
  {
    if a.Ok? && b.Ok? && c.Ok? {
      assert a.value + b.value + c.value == a.value + (b.value + c.value);
    }
  }

  lemma {:induction false} PartsPortsAppend(xs: seq<string>, ys: seq<string>, excluded: seq<int>)
    ensures PartsPorts(xs + ys, excluded) == Then(PartsPorts(xs, excluded), PartsPorts(ys, excluded))
    decreases |ys|
  {
    if |ys| == 0 {
      assert xs + ys == xs;
      if PartsPorts(xs, excluded).Ok? {
        assert PartsPorts(xs, excluded).value + [] == PartsPorts(xs, excluded).value;
      }
    } else {
      var init, last := ys[..|ys| - 1], ys[|ys| - 1];
      assert (xs + ys)[..|xs + ys| - 1] == xs + init;
      assert (xs + ys)[|xs + ys| - 1] == last;
      PartsPortsAppend(xs, init, excluded);
      ThenAssociative(PartsPorts(xs, excluded), PartsPorts(init, excluded), PartPorts(last, excluded));
    }
  }

  /**
   * A comma list is the concatenation, in input order, of its parts'
   * expansions: no sorting, no removal of duplicates.
   */
  lemma CommaList(x: string, y: string, excluded: seq<int>)
    ensures ExpandPorts(x + "," + y, excluded) == Then(ExpandPorts(x, excluded), ExpandPorts(y, excluded))
  {
    var s := x + "," + y;
    assert s == x + [','] + y;
    assert s[|x|] == ',';
    SplitAt(x, y, ',');
    PartsPortsAppend(Split(x, ','), Split(y, ','), excluded);
    ExpandPortsAsParts(x, excluded);
    ExpandPortsAsParts(y, excluded);
  }

  lemma {:induction false} WithoutAvoids(ps: seq<int>, excluded: seq<int>)
    ensures forall p :: p in Without(ps, excluded) ==> p !in excluded && p in ps
    decreases |ps|
  {
    if |ps| > 0 {
      WithoutAvoids(ps[..|ps| - 1], excluded);
    }
  }

  lemma {:induction false} PartsAvoid(parts: seq<string>, excluded: seq<int>)
    ensures PartsPorts(parts, excluded).Ok? ==>
            forall p :: p in PartsPorts(parts, excluded).value ==> p !in excluded
    decreases |parts|
  {
    if |parts| > 0 {
      PartsAvoid(parts[..|parts| - 1], excluded);
      var part := parts[|parts| - 1];
      if '-' in part && RangeBounds(part).Ok? {
        var b := RangeBounds(part).value;
        WithoutAvoids(Span(b.0, b.1), excluded);
      }
    }
  }

  /** No excluded port is ever returned, whether it came from a range or was listed alone. */
  lemma PortsAvoidExclusions(s: string, excluded: seq<int>)
    ensures ExpandPorts(s, excluded).Ok? ==>
            forall p :: p in ExpandPorts(s, excluded).value ==> p !in excluded
  {
    ExpandPortsAsParts(s, excluded);
    PartsAvoid(Split(s, ','), excluded);
  }

  /** The kept ports of a range: ascending, and exactly those from `first` to `last` not excluded. */
  lemma {:induction false} WithoutSpan(first: int, last: int, excluded: seq<int>)
    ensures forall p :: p in Without(Span(first, last), excluded) <==> first <= p <= last && p !in excluded
    ensures var ws := Without(Span(first, last), excluded);
            forall i, j :: 0 <= i < j < |ws| ==> ws[i] < ws[j]
    ensures first > last ==> Without(Span(first, last), excluded) == []
    decreases last - first
  {
    var ws := Without(Span(first, last), excluded);
    WithoutAvoids(Span(first, last), excluded);
    if first <= last {
      SpanStep(first, last);
      WithoutStep(Span(first, last - 1), last, excluded);
      WithoutSpan(first, last - 1, excluded);
      var prev := Without(Span(first, last - 1), excluded);
      var span := Span(first, last - 1);
      assert forall p :: p in span ==> p <= last - 1;
      if last !in excluded {
        assert ws == prev + [last];
        forall i, j | 0 <= i < j < |ws| ensures ws[i] < ws[j] {
          if j == |ws| - 1 {
            assert ws[i] in prev;
          }
        }
      }
    }
  }

  /**
   * A single range `a-b` yields a, a+1, ..., b in ascending order with the
   * excluded ports removed; when a > b it yields nothing, without raising.
   */
  lemma SingleRange(a: nat, b: nat, excluded: seq<int>)
    ensures var s := NatToString(a) + "-" + NatToString(b);
            var ps := Without(Span(a, b), excluded);
            && ExpandPorts(s, excluded) == Ok(ps)
            && (forall p :: p in ps <==> a <= p <= b && p !in excluded)
            && (forall i, j :: 0 <= i < j < |ps| ==> ps[i] < ps[j])
            && (a > b ==> ps == [])
  {
    DigitRange(NatToString(a), NatToString(b), excluded);
    NatToStringValue(a);
    NatToStringValue(b);
    WithoutSpan(a, b, excluded);
  }

  /** Two digit runs around a dash expand to the kept ports between their values. */
  lemma DigitRange(x: string, y: string, excluded: seq<int>)
    requires IsDigits(x) && IsDigits(y)
    ensures ExpandPorts(x + "-" + y, excluded) == Ok(Without(Span(DigitsValue(x), DigitsValue(y)), excluded))
  {
    var s := x + "-" + y;
    assert s == x + ['-'] + y;
    DigitsLack(x, '-');
    DigitsLack(y, '-');
    DigitsLack(x, ',');
    DigitsLack(y, ',');
    assert ',' !in s;
    assert s[|x|] == '-';
    SplitAt(x, y, '-');
    SplitWithout(x, '-');
    SplitWithout(y, '-');
    ParseIntDigits(x);
    ParseIntDigits(y);
  }

  /** A single port `n` yields `[n]`, or nothing when `n` is excluded. */
  lemma SinglePort(n: nat, excluded: seq<int>)
    ensures ExpandPorts(NatToString(n), excluded) == Ok(if n in excluded then [] else [n])
  {
    var x := NatToString(n);
    DigitsLack(x, '-');
    DigitsLack(x, ',');
    ParseIntDigits(x);
    NatToStringValue(n);
  }

  /** A comma-free part that does not raise: one dash with two integers around it, or one integer. */
  predicate WellFormedPart(part: string)
  {
    if '-' in part then
      var pieces := Split(part, '-');
      |pieces| == 2 && ParseInt(pieces[0]).Some? && ParseInt(pieces[1]).Some?
    else ParseInt(part).Some?
  }

  lemma PartOkIff(part: string, excluded: seq<int>)
    ensures PartPorts(part, excluded).Ok? <==> WellFormedPart(part)
  {
  }

  lemma {:induction false} PartsOkIff(parts: seq<string>, excluded: seq<int>)
    ensures PartsPorts(parts, excluded).Ok? <==> forall k :: 0 <= k < |parts| ==> WellFormedPart(parts[k])
    decreases |parts|
  {
    if |parts| > 0 {
      var n := |parts|;
      var init := parts[..n - 1];
      PartsOkIff(init, excluded);
      PartOkIff(parts[n - 1], excluded);
      ThenOk(PartsPorts(init, excluded), PartPorts(parts[n - 1], excluded));
      assert forall k :: 0 <= k < |init| ==> init[k] == parts[k];
      assert (forall k :: 0 <= k < n ==> WellFormedPart(parts[k]))
         <==> (forall k :: 0 <= k < |init| ==> WellFormedPart(init[k])) && WellFormedPart(parts[n - 1]);
    }
  }

  lemma ThenOk(first: Result<seq<int>, ParseError>, second: Result<seq<int>, ParseError>)
    ensures Then(first, second).Ok? <==> first.Ok? && second.Ok?
  {
  }

  /**
   * `parse_ports` raises exactly when some comma-separated part has a token
   * `int` rejects or more than one dash: nothing is silently dropped.
   */
  lemma PortsOkIff(s: string, excluded: seq<int>)
    ensures ExpandPorts(s, excluded).Ok? <==>
            forall k :: 0 <= k < |Split(s, ',')| ==> WellFormedPart(Split(s, ',')[k])
  {
    ExpandPortsAsParts(s, excluded);
    PartsOkIff(Split(s, ','), excluded);
  }

  /** Two listed ports come back as listed: no sorting (`25,20`) and no removal of duplicates (`80,80`). */
  lemma TwoPortsKept(a: nat, b: nat, excluded: seq<int>)
    requires a !in excluded && b !in excluded
    ensures ExpandPorts(NatToString(a) + "," + NatToString(b), excluded) == Ok([a, b])
  {
    var x, y := NatToString(a), NatToString(b);
    SinglePort(a, excluded);
    SinglePort(b, excluded);
    assert ExpandPorts(x, excluded) == Ok([a]);
    assert ExpandPorts(y, excluded) == Ok([b]);
    var ra: Result<seq<int>, ParseError>, rb: Result<seq<int>, ParseError> := Ok([a]), Ok([b]);
    assert [a] + [b] == [a, b];
    assert Then(ra, rb) == Ok([a, b]);
    CommaList(x, y, excluded);
  }

  /** A range followed by a port: the range's kept ports in ascending order, then the port. */
  lemma RangeThenPort(a: nat, b: nat, c: nat, excluded: seq<int>)
    requires c !in excluded
    ensures ExpandPorts(NatToString(a) + "-" + NatToString(b) + "," + NatToString(c), excluded)
         == Ok(Without(Span(a, b), excluded) + [c])
  {
    var x, y := NatToString(a) + "-" + NatToString(b), NatToString(c);
    SingleRange(a, b, excluded);
    SinglePort(c, excluded);
    var rx: Result<seq<int>, ParseError>, ry: Result<seq<int>, ParseError> := Ok(Without(Span(a, b), excluded)), Ok([c]);
    assert Then(rx, ry) == Ok(Without(Span(a, b), excluded) + [c]);
    CommaList(x, y, excluded);
  }

  /** `20-22,25` with 21 excluded gives 20, 22, 25. */
  lemma RangeAndPortExample()
    ensures ExpandPorts(NatToString(20) + "-" + NatToString(22) + "," + NatToString(25), [21]) == Ok([20, 22, 25])
  {
    RangeThenPort(20, 22, 25, [21]);
    FilteredExample();
    assert [20, 22] + [25] == [20, 22, 25];
  }

  lemma FilteredExample()
    ensures Without(Span(20, 22), [21]) == [20, 22]
  {
    var excluded := [21];
    SpanStep(20, 22);
    SpanStep(20, 21);
    SpanStep(20, 20);
    assert Span(20, 19) == [];
    WithoutStep(Span(20, 19), 20, excluded);
    WithoutStep(Span(20, 20), 21, excluded);
    WithoutStep(Span(20, 21), 22, excluded);
  }
}
