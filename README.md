# SYNapse scanner core in Dafny

This project models the deterministic core of SYNapse, an asynchronous TCP port scanner, and proves properties of that model. It covers four parts:

- **Target and port expansion** (`parse_targets`, `parse_ports`). Target text is expanded into hosts: a last-octet range `a.b.c.d-N`, an IPv4 network in prefix notation (section 3.1 of RFC 4632), or the text itself. Port text is expanded into a port list: a single port, a range `a-b`, or a comma list of both, minus an exclusion list.
- **The scanner object** (`AsyncPortScanner`). Its `scan` builds the target-major list of (target, port) tasks, runs `_scan_port` on each, and keeps the open results. `_scan_port` decides from the configuration flags and two fixed port sets which probes run and which result fields they fill.
- **The text renderer** (`format_results`).
- **The records and enumerations** these parts exchange.

The files are:

- `wrappers.dfy`: `Option` and `Result`.
- `strings.dfy`: the Python text operations the code relies on. These are `str.split`, `str.join`, `int()` on text, `str()` of an integer, `str.upper()` and `str.replace(c, '')`.
- `ipv4.dfy`: the part of Python's `ipaddress` module that `parse_targets` uses: IPv4 addresses, `IPv4Network(text, strict=False)` and `hosts()`.
- `models.dfy`: `PortStatus`, `Protocol`, `ScanResult` and `ScanConfig`, with the dataclass defaults as constructor defaults.
- `utils.dfy`: `parse_targets` and `parse_ports`. Each is a method with the source's loops and appends, proved equal to a specification function that the lemmas describe.
- `core.dfy`: the `Scanner` class with `CheckPort`, `ScanPort` and `Scan`, each proved equal to a specification function. Everything the scanner learns from the network is an `Environment` value. That value holds name lookup, whether a connection completes, the event loop's clock and the four probes, each as a function of its arguments. The concurrent tasks run one after another in task order, which is the order in which `asyncio.gather` returns their results.
- `output.dfy`: `format_results` as a loop building each block, proved equal to the joined blocks.

Two behaviours of the code are worth stating outright:

- `parse_ports` neither sorts nor removes duplicates (`Utils.TwoPortsKept`).
- An inverted range gives an empty list, not an error, in both `parse_ports` and `parse_targets` (`Utils.SingleRange`, `Utils.InvertedRange`).

## Model

| member | source | states |
|---|---|---|
| Models.StatusValues | scanner/models.py:5-9 | Every status's value is one of `open`, `closed`, `filtered`, `unknown`, and different statuses have different values |
| Models.ProtocolValues | scanner/models.py:11-16 | Every protocol's value is one of `tcp`, `udp`, `http`, `https`, `quic`, and different protocols have different values |
| Models.ResultDefaults | scanner/models.py:18-30 | A result built from target, port, status and protocol alone has no banner, TLS, QUIC or OS details, no response time, no service and no timestamp |
| Models.ConfigDefaults | scanner/models.py:32-44 | The default configuration: timeout 1.0, concurrency 500, delay 0.0, banner grabbing on, every other flag off, no proxy, no exclusions |
| Strings.Split | scanner/utils.py:11-12 | `str.split(c)` yields at least one piece and no piece contains the separator |
| Strings.SplitWithout | scanner/utils.py:40 | Text without the separator splits into itself alone |
| Strings.SplitAt | scanner/utils.py:11 | Splitting `a + c + b` gives the pieces of `a` followed by the pieces of `b` |
| Strings.SplitAppend | scanner/utils.py:10-11 | Appending a character other than the separator extends only the last piece |
| Strings.SplitLacks | scanner/utils.py:11 | A character found in no piece is absent from the text |
| Strings.JoinCons | scanner/output.py:23 | Joining `[x] + xs` (with `xs` not empty) is `x`, the separator, then the join of `xs` |
| Strings.JoinSplit | scanner/output.py:23 | Joining the pieces of a split with its separator gives the text back |
| Strings.SplitJoin | scanner/output.py:23 | Splitting a join of separator-free pieces gives the pieces back |
| Strings.DigitChar | scanner/utils.py:16 | A digit value maps to an ASCII digit |
| Strings.NatToString | scanner/utils.py:16 | `str(n)` is a non-empty digit run with no leading zero unless `n` is 0 |
| Strings.NatToStringValue | scanner/utils.py:16 | Reading `str(n)` back gives `n` |
| Strings.NatToStringShort | scanner/utils.py:16 | Numbers below 1000 print in at most three digits |
| Strings.DropUnderscores | scanner/utils.py:13 | Removing underscores from digits and underscores leaves digits; digits alone are unchanged |
| Strings.ParseIntDigits | scanner/utils.py:45 | `int` of a digit run is its decimal value |
| Strings.ParseIntDigitsNewline | scanner/utils.py:15 | `int` ignores a trailing newline after a digit run |
| Strings.ParseIntNegative | scanner/utils.py:41-45 | `int` reads a minus sign followed by digits as the negated value. This completes the model of `int`; `parse_ports` never passes it a sign, because a part holding '-' is split at the dash first |
| Strings.ParseIntRoundTrip | scanner/utils.py:16 | `int(str(i)) == i` for every integer: the decimal text the range loop prints reads back as the number. This completes the model of `int` and `str`; no line of the scanner parses text it printed |
| Strings.ParseIntEmpty | scanner/utils.py:45 | `int("")` raises |
| Strings.Upper | scanner/output.py:8 | ASCII `upper()` keeps the length |
| Strings.Remove | scanner/core.py:45 | `replace('.', '')` leaves no dot and only characters of the input |
| Ipv4.ParseOctet | scanner/utils.py:19 | An accepted octet is a digit run with value below 256 |
| Ipv4.ParseAddress | scanner/utils.py:19 | An accepted dotted quad denotes an address below 2^32 |
| Ipv4.OctetRoundTrip | scanner/utils.py:20 | Every octet value printed in decimal parses back to itself |
| Ipv4.AddressLacks | scanner/utils.py:19 | An accepted address holds only digits and dots |
| Ipv4.FormatPieces | scanner/utils.py:20 | A printed address splits into its four octets in decimal |
| Ipv4.ParseFormat | scanner/utils.py:20 | Every printed address parses back to the same address |
| Ipv4.FormatInjective | scanner/utils.py:20 | Different addresses print differently |
| Ipv4.MaskHost | scanner/utils.py:19 | Clearing host bits gives the block-aligned network address that contains the address |
| Ipv4.MaskFits | scanner/utils.py:19 | The masked network lies inside the IPv4 address space |
| Ipv4.PrefixOfNetmask | scanner/utils.py:19 | A netmask is accepted only as the mask of the prefix length it is reported as |
| Ipv4.PrefixOfMask | scanner/utils.py:19 | A netmask or host mask gives a prefix length of at most 32 |
| Ipv4.ParsePrefix | scanner/utils.py:19 | The part after `/` gives a prefix length of at most 32 |
| Ipv4.ParseNetwork | scanner/utils.py:19 | An accepted network is aligned to its prefix length and lies in the address space |
| Ipv4.ParseNetworkWithPrefix | scanner/utils.py:19 | `address/p` parses to the network of `p` that holds the address, host bits cleared |
| Ipv4.HostsCount | scanner/utils.py:20 | A network with prefix length at most 30 has 2^(32-p) - 2 hosts |
| Ipv4.HostsAreUsable | scanner/utils.py:20 | The hosts are exactly the addresses strictly between the network and broadcast addresses, ascending, both ends excluded |
| Ipv4.HostsInRange | scanner/utils.py:20 | Every host is an IPv4 address |
| Ipv4.HostTextsExcludeEnds | scanner/utils.py:20 | No host prints as the network or broadcast address |
| Utils.DashPieces | scanner/utils.py:10-13 | On a matching range, the code's own splits and `int` calls read the pieces the pattern matched, a final newline included |
| Utils.OctetRangeStep | scanner/utils.py:15-16 | Each loop round appends the address for the next value |
| Utils.ParseTargets | scanner/utils.py:7-25 | The method returns exactly the specified expansion of the target text, or its error |
| Utils.RangeTargets | scanner/utils.py:15-16 | The range loop yields `p0.p1.p2.i` for each `i` from start to end inclusive, nothing when start > end |
| Utils.HostTargets | scanner/utils.py:20 | Extending the list with each host's text yields the printed hosts in order |
| Utils.DigitsAndDotsLack | scanner/utils.py:10 | Digit runs joined by dots contain no other character |
| Utils.DashRangeHasNoSlash | scanner/utils.py:10-18 | A last-octet range has no `/`, so the branches never overlap |
| Utils.QuadPieces | scanner/utils.py:12 | Four digit runs joined by dots split back into those runs |
| Utils.DashText | scanner/utils.py:10-11 | A range's text without its final newline splits at the dash into base and end |
| Utils.DashRangeExpansion | scanner/utils.py:10-16 | `o0.o1.o2.o3-e`, with or without a final newline, expands to `o0.o1.o2.i` for `i` from the value of `o3` to the value of `e` |
| Utils.UncheckedRangeEnd | scanner/utils.py:15-16 | A range yields `end - start + 1` addresses whatever the end value, the last one ending in the end value: there is no 255 bound check |
| Utils.InvertedRange | scanner/utils.py:15 | A range whose end is below its start yields no address and no error |
| Utils.NetworkExpansion | scanner/utils.py:18-20 | Text with `/` that parses as a network expands to its printed hosts |
| Utils.HostTexts | scanner/utils.py:20 | A network with prefix length at most 30 prints 2^(32-p) - 2 hosts, neither end among them |
| Utils.CidrExpansion | scanner/utils.py:18-20 | `address/p` with p up to 30 gives the 2^(32-p) - 2 usable hosts of the masked network, which holds the address; network and broadcast addresses are excluded |
| Utils.LiteralTarget | scanner/utils.py:22-23 | Text that is neither a range nor contains `/` is its own single target |
| Utils.TargetsFailOnlyAsNetworks | scanner/utils.py:18-19 | Only text with `/` can raise, and then only when it is not a network |
| Utils.SpanStep | scanner/utils.py:43 | `range(a, p + 1)` is `range(a, p)` followed by `p` |
| Utils.WithoutStep | scanner/utils.py:43 | Filtering one more port appends it exactly when it is not excluded |
| Utils.RangeWithout | scanner/utils.py:43 | The generator adds the ports from start to end that are not excluded, in order |
| Utils.ErrorPersists | scanner/utils.py:40-47 | Once a part raises, the whole call raises the same error |
| Utils.ParsePorts | scanner/utils.py:35-56 | The method returns exactly the specified expansion of the port text, or its error |
| Utils.AddPart | scanner/utils.py:41-47 | Handling one part appends its kept ports to the list so far, or raises that part's error |
| Utils.ExpandPortsAsParts | scanner/utils.py:39-54 | Text without a comma behaves as a one-part list: the comma test changes nothing |
| Utils.ThenAssociative | scanner/utils.py:40 | Combining results in order is associative |
| Utils.PartsPortsAppend | scanner/utils.py:40-47 | Expanding `xs + ys` combines the expansions of `xs` and of `ys`, first error first |
| Utils.CommaList | scanner/utils.py:39-47 | `x,y` expands to the expansion of `x` followed by that of `y`: input order, no sorting, no deduplication |
| Utils.WithoutAvoids | scanner/utils.py:43 | A filtered range holds no excluded port and only ports of the range |
| Utils.PartsAvoid | scanner/utils.py:40-47 | No part of a comma list contributes an excluded port |
| Utils.PortsAvoidExclusions | scanner/utils.py:43-53 | No returned port is excluded, whether it came from a range or was listed alone |
| Utils.WithoutSpan | scanner/utils.py:43 | A filtered range holds exactly the non-excluded ports from start to end, strictly ascending, and is empty when start > end |
| Utils.DigitRange | scanner/utils.py:48-50 | Two digit runs around a dash expand to the non-excluded ports from the first value to the second |
| Utils.SingleRange | scanner/utils.py:48-50 | `a-b` yields the non-excluded ports a..b ascending; for a > b it yields nothing and raises nothing |
| Utils.SinglePort | scanner/utils.py:51-54 | `n` yields `[n]`, or `[]` when `n` is excluded |
| Utils.PartOkIff | scanner/utils.py:41-45 | A part raises exactly when it is not one dash between two integers or a single integer |
| Utils.ThenOk | scanner/utils.py:40-47 | Combining two results succeeds exactly when both do |
| Utils.PartsOkIff | scanner/utils.py:40-47 | A comma list raises exactly when some part is malformed |
| Utils.PortsOkIff | scanner/utils.py:42-52 | `parse_ports` succeeds exactly when every comma-separated part is well formed: nothing is silently dropped |
| Utils.TwoPortsKept | scanner/utils.py:39-47 | `a,b` gives `[a, b]` for any two non-excluded ports: `25,20` stays unsorted, `80,80` keeps the duplicate |
| Utils.RangeThenPort | scanner/utils.py:39-47 | `a-b,c` gives the range's kept ports followed by `c` |
| Utils.RangeAndPortExample | scanner/utils.py:39-47 | `20-22,25` with 21 excluded gives `[20, 22, 25]` |
| Utils.FilteredExample | scanner/utils.py:43 | Filtering 21 out of `range(20, 23)` leaves `[20, 22]` |
| Core.ResolveTargetCases | scanner/core.py:45-46 | With resolution on, a target that is not all digits and dots, and a successful lookup, the probed host is the looked-up address; in every other case it is the target itself (name resolution as intended; see ## Findings) |
| Core.ResolveTarget | scanner/core.py:45-46 | A target changes only when resolution is on, the target is not all digits and dots, and the lookup reports the new host (name resolution as intended; see ## Findings) |
| Core.PortResult | scanner/core.py:43-78 | One endpoint's result. Closed when the check fails, with TCP and no optional field or timestamp. Open with TCP, the same port and a timestamp when it succeeds. The banner only with banner grabbing, TLS only with TLS scanning on 443/8443/993/995, QUIC only with QUIC scanning on 443/80, the OS guess only with fingerprinting. Never a response time or service (name resolution as intended; see ## Findings) |
| Core.Scanner.constructor | scanner/core.py:8-11 | The scanner keeps the configuration and its proxy |
| Core.Scanner.CheckPort | scanner/core.py:30-41 | The check is true only for a direct connection that completes in time; any failure, and any proxied attempt, gives false without raising |
| Core.Scanner.ScanPort | scanner/core.py:43-78 | The step-by-step result equals the endpoint's specified result (name resolution as intended; see ## Findings) |
| Core.Scanner.Scan | scanner/core.py:80-87 | The nested task loops, the gather and the filter return exactly the specified scan results (name resolution as intended; see ## Findings) |
| Core.Scanner.Gather | scanner/core.py:86 | Gathering yields every task's specified result, in task order |
| Core.BuildTasks | scanner/core.py:81-84 | The nested loops create exactly the work list: each target with every port, target by target |
| Core.KeepOpen | scanner/core.py:87 | The filter keeps exactly the open results, in order |
| Core.WorkListLength | scanner/core.py:81-84 | There are (number of targets) × (number of ports) tasks |
| Core.WorkListAppend | scanner/core.py:82-84 | The tasks of `xs + ys` are those of `xs` followed by those of `ys` |
| Core.OpenOnlyAppend | scanner/core.py:87 | Filtering distributes over concatenation, so order is kept |
| Core.OpenOnlyMembers | scanner/core.py:87 | Filtering keeps exactly the open results, and never more results than it is given |
| Core.WorkListIndex | scanner/core.py:81-84 | Task i × (number of ports) + j exists and is `(targets[i], ports[j])`: target-major order |
| Core.ScanSound | scanner/core.py:80-87 | Every returned result is open and is the result of some endpoint of the product |
| Core.ScanComplete | scanner/core.py:80-87 | Every endpoint found open is returned |
| Core.ScanBound | scanner/core.py:80-87 | At most (number of targets) × (number of ports) results are returned |
| Core.WorkListMember | scanner/core.py:82-84 | Every task pairs some target with some port |
| Core.ScanTargetMajor | scanner/core.py:80-87 | Scanning `xs + ys` returns the results for `xs`, then those for `ys` |
| Core.ProxyScanIsEmpty | scanner/core.py:14-36 | With a proxy set, no port is found open and the scan returns nothing |
| Core.OpenOnlyNone | scanner/core.py:87 | A list without open results filters to nothing |
| Core.OneListenerExample | scanner/core.py:80-87 | Ports 80-82 of one target with a listener on 81 only give exactly one result: the target's open port 81 |
| Core.RemoveKeepsDigit | scanner/core.py:45 | Removing dots from text with a digit leaves something |
| Core.DigitsAndDotsAreDotted | scanner/core.py:45 | Digits and dots with at least one digit pass the dotted-decimal test |
| Core.DottedJoin | scanner/core.py:45 | Joining digit-and-dot texts with a dot keeps them digit-and-dot |
| Core.DottedDecimalNeverResolved | scanner/core.py:45-46 | A dotted-decimal target is probed unchanged, whatever the configuration |
| Core.AddressesNeverResolved | scanner/core.py:45-46 | Every printed IPv4 address is probed unchanged |
| Core.QuadNeverResolved | scanner/core.py:45-46 | Four digit runs joined by dots are probed unchanged |
| Core.RangeAddressNeverResolved | scanner/core.py:45-46 | Every address of a last-octet range is probed unchanged |
| Core.DashTargetsNeverResolved | scanner/core.py:45-46 | A last-octet range expands without error to targets that are never resolved |
| Core.NetworkTargetsNeverResolved | scanner/core.py:45-46 | Text with `/` that parses as a network expands without error to targets that are never resolved |
| Core.OctetRangeNeverResolved | scanner/core.py:45-46 | No address of a last-octet range with digit octets is resolved |
| Core.HostTextsNeverResolved | scanner/core.py:45-46 | No printed host address is resolved |
| Core.ExpandedTargetsNeverResolved | scanner/core.py:45-46 | Targets expanded from a range or a network are never resolved |
| Core.ScanPortAsWritten | scanner/core.py:45-46 | As written, an endpoint raises exactly when resolution is on and the target is not dotted decimal; otherwise it gives the intended result |
| Core.ScanAsWrittenRaises | scanner/core.py:45-46 | As written, one non-dotted target and one port make the scan raise `NameError` |
| Core.HostNameRaisesAsWritten | scanner/core.py:45-46 | As written, `example.com` on port 80 with resolution on raises |
| Core.ScanAsWrittenAgrees | scanner/core.py:45-87 | With resolution off, or only dotted-decimal targets, the scan as written returns the intended results |
| Core.HostNameResolved | scanner/core.py:45-48 | As intended, a host name is probed at the address its lookup reports: its result's target is that address, and scanning the name on one port returns that result exactly when the address's port is open, otherwise nothing |
| Output.Truncate | scanner/output.py:11 | `banner[:100]` is the whole text when it has at most 100 characters, and otherwise exactly its first 100 characters |
| Output.FormatBlock | scanner/output.py:8-21 | The line built fragment by fragment is the specified block |
| Output.AddBanner | scanner/output.py:10-11 | The banner fragment is added exactly when the banner is non-empty, cut to 100 characters |
| Output.AddTls | scanner/output.py:13-16 | The TLS line, and the subject line when a certificate is present, are added only in verbose mode |
| Output.AddQuic | scanner/output.py:18-19 | The QUIC line is added only in verbose mode |
| Output.FormatResults | scanner/output.py:4-23 | The loop and the join return exactly the specified text |
| Output.FormatBlocks | scanner/output.py:5-21 | The loop appends exactly one block per result, in order |
| Output.BlocksSnoc | scanner/output.py:21 | One more result appends its block |
| Output.MapSnoc | scanner/output.py:21 | Mapping over one more element appends its image |
| Output.MapAt | scanner/output.py:7-21 | Mapping keeps the length, and element k maps to element k |
| Output.BlocksAt | scanner/output.py:7-21 | There is one block per result, and block k is the block of result k |
| Output.NoResults | scanner/output.py:5-23 | No results render as the empty text |
| Output.RenderedAppend | scanner/output.py:21-23 | A further result adds a newline and its block; there is no trailing newline |
| Output.JoinSnoc | scanner/output.py:23 | Joining one more piece adds the separator and the piece |
| Output.OneResult | scanner/output.py:23 | A single result renders as its block alone |
| Output.StatusTexts | scanner/output.py:8 | The statuses show as `OPEN`, `CLOSED`, `FILTERED`, `UNKNOWN` |
| Output.BlockStartsWithHeader | scanner/output.py:8-11 | Each block starts with its header, then the banner cut to 100 characters when the banner is non-empty; an empty or absent banner adds nothing |
| Output.QuietBlock | scanner/output.py:13-19 | Without verbose mode a block is its header and banner alone: no TLS or QUIC text |
| Output.VerboseNeedsDetails | scanner/output.py:13-19 | Verbose mode changes nothing for results without TLS or QUIC details |
| Output.QuicLine | scanner/output.py:18-19 | In verbose mode the QUIC line says `Supported` exactly when the handshake succeeded; without verbose mode there is none |
| Output.NoNewlineInNumber | scanner/output.py:8 | A printed port holds no newline |
| Output.NoNewlineInStatus | scanner/output.py:8 | A printed status holds no newline |
| Output.QuietBlockOneLine | scanner/output.py:8-11 | Without verbose mode a block holds a newline only if its target or banner does |
| Output.OneLinePerResult | scanner/output.py:4-23 | Without verbose mode, and with newline-free targets and banners, the text splits into exactly one line per result |

## Left out

- cli.py is not part of this model. That covers argument parsing, console and file output, and the building of the exclusion list.
- The probes in scanner/protocols are not modelled: HTTP banner grabbing, TLS and QUIC handshakes, passive OS fingerprinting. Each is a function in `Core.Environment` returning an optional record. Each record keeps the dictionary's keys as fields, with simplified types: the TLS cipher tuple, the certificate's subject and issuer dictionaries and the values Python may leave as `None` are text, and `OsGuess` holds its two socket options as optional integers. `QuicInfo` drops the `handshake_time` and `ciphers` keys of scanner/protocols/quic.py, which nothing reads.
- The DNS lookup inside `resolve_domain` is not modelled: `Core.Environment.lookup` stands in for `getaddrinfo`, with `None` for `gaierror`. `Core.ResolveDomain` models the rest of `resolve_domain`, returning the looked-up address or, on a lookup failure, the name itself. A `getaddrinfo` failure other than `gaierror`, such as the `UnicodeError` that IDNA encoding raises for a name with an empty label like `a..b`, would escape `resolve_domain`; `lookup`, of type `string -> Option<string>`, cannot express it.
- Utils.MatchesDashRange: only ASCII digits match; Python's `\d` also matches other Unicode digits, so such text is kept as a literal target instead of being expanded.
- Concurrency is not modelled: the semaphore, `gather` scheduling, `sleep` before a connection and `wait_for` timeouts. The tasks run one by one in task order, and `concurrency` limits nothing. `asyncio.Semaphore(config.concurrency)` in the constructor raises `ValueError` for a negative value, and with 0 every task waits forever so `scan` never returns; `Core.Scanner.constructor` accepts both.
- The proxy branches of `_create_connection` are not modelled. They are calls into aiohttp and aiosocks, represented only by their outcome: the check is false.
- Floating-point values are not modelled beyond being carried along: timeout, delay and timestamps are `real`, never computed with.
- Core.Scanner.CheckPort: the connection's outcome is a function of host, port and timeout, so two checks of the same endpoint always agree. Real networks do not guarantee this.
- Core.IsDottedDecimal: only ASCII digits count. Python's `isdigit` also accepts other Unicode digits.
- Strings.ParseInt: only ASCII digits and ASCII white space are understood. Python's `int` also accepts other Unicode digits and spaces.
- Strings.ParseInt: Python's limit on long decimal integers is not modelled. From Python 3.11 (and the security releases 3.7.14, 3.8.14, 3.9.14 and 3.10.7), `int()` raises `ValueError` for text of more than 4300 digits and `str()` refuses such an integer; the model reads a digit run of any length. Every lemma built on it inherits this, including `Utils.DigitRange`, `Utils.SinglePort` and `Utils.DashRangeExpansion`: for example, `parse_ports` raises on `"1" * 4301` where `ExpandPorts` returns the port.
- Strings.ParseIntDigits: holds for every digit run, while Python raises for a run of more than 4300 digits (see the `Strings.ParseInt` line above).
- Strings.ParseIntRoundTrip: holds for every integer, while Python's `str()` and `int()` raise from 10^4300 upward (see the `Strings.ParseInt` line above).
- Utils.PartOkIff: a part is well formed for any length of digit run, while Python also raises for an integer of more than 4300 digits (see the `Strings.ParseInt` line above).
- Utils.PortsOkIff: `parse_ports` also raises for an integer of more than 4300 digits, which the "exactly when" does not include (see the `Strings.ParseInt` line above).
- Utils.ParseTargets: IPv6 networks are not expanded. Text whose address part holds `:` gives the `Ipv6NotModelled` error instead of IPv6 hosts.
- Output.TlsText: the TLS version, cipher and certificate subject are shown as given. Python's own rendering of a missing key (`None`) or of a cipher tuple is not modelled.

## Findings

| source | as written | input that shows it | evidently intended | confidence | as-written member | corrected member |
|---|---|---|---|---|---|---|
| scanner/core.py:45-46 | `_scan_port` calls `resolve_domain`, but core.py never imports it (imports at lines 1-5): the resolution branch raises `NameError`, and `gather` passes it out of `scan` | `scan(["example.com"], [80])` with `resolve_dns` on | resolve the name with `resolve_domain` from scanner/utils.py:27-33 and probe the reported address | not executed | Core.HostNameRaisesAsWritten | Core.HostNameResolved |
