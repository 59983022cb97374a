/**
 * `format_results` from scanner/output.py: one text block per result, the
 * blocks joined by newlines. Each block is a header line, the banner's first
 * 100 characters when there is a banner, and, in verbose mode only, the TLS
 * and QUIC details on indented lines of their own.
 */
module Output {
  import opened Wrappers
  import opened Strings
  import opened Models

  /** The longest banner prefix shown. */
  const BannerLimit: nat := 100

  /** `status.value.upper()`. */
  function StatusText(s: PortStatus): string
  {
    Upper(StatusValue(s))
  }

  /** `[+] target:port STATUS`. */
  function Header(r: ScanResult): string
  {
    "[+] " + r.target + ":" + IntToString(r.port) + " " + StatusText(r.status)
  }

  /** `banner[:100]`. */
  function Truncate(s: string, limit: nat): (t: string)
    ensures |t| <= limit && t <= s
    ensures |s| <= limit ==> t == s
    ensures |s| > limit ==> t == s[..limit]
  {
    if |s| <= limit then s else s[..limit]
  }

  /** The banner fragment: present only for a non-empty banner. */
  function BannerText(banner: Option<string>): string
  {
    if banner.Some? && |banner.value| > 0 then " | Banner: " + Truncate(banner.value, BannerLimit) else ""
  }

  /** The TLS lines, shown only in verbose mode; the certificate subject only when a certificate is present. */
  function TlsText(tls: Option<TlsInfo>, verbose: bool): string
  {
    if tls.Some? && verbose then
      "\n   TLS: " + tls.value.version + " " + tls.value.cipher
      + (if tls.value.certificate.Some? then "\n   Cert Subject: " + tls.value.certificate.value.subject else "")
    else ""
  }

  function SupportText(supported: bool): string
  {
    if supported then "Supported" else "Not supported"
  }

  /** The QUIC line, shown only in verbose mode. */
  function QuicText(quic: Option<QuicInfo>, verbose: bool): string
  {
    if quic.Some? && verbose then "\n   QUIC: " + SupportText(quic.value.supported) else ""
  }

  /** The block for one result. */
  function Block(r: ScanResult, verbose: bool): string
  {
    Header(r) + BannerText(r.banner) + TlsText(r.tlsInfo, verbose) + QuicText(r.quicInfo, verbose)
  }

  /** The blocks of all results, in order. */
  function Blocks(results: seq<ScanResult>, verbose: bool): seq<string>
  {
    MapSeq(r => Block(r, verbose), results)
  }

  /** `f` applied to each element, in order. */
  function MapSeq<A, B>(f: A -> B, xs: seq<A>): seq<B>
    decreases |xs|
  {
    if |xs| == 0 then [] else MapSeq(f, xs[..|xs| - 1]) + [f(xs[|xs| - 1])]
  }

  /** What `format_results(results, verbose)` returns. */
  function Rendered(results: seq<ScanResult>, verbose: bool): string
  {
    Join(Blocks(results, verbose), "\n")
  }

  /** One iteration of `format_results`: the block of one result, built fragment by fragment. */
  method FormatBlock(result: ScanResult, verbose: bool) returns (line: string)
    ensures line == Block(result, verbose)
  {
    line := Header(result);
    line := AddBanner(line, result.banner);
    line := AddTls(line, result.tlsInfo, verbose);
    line := AddQuic(line, result.quicInfo, verbose);
  }

  /** `line += " | Banner: ..."` for a non-empty banner. */
  method AddBanner(line: string, banner: Option<string>) returns (out: string)
    ensures out == line + BannerText(banner)
  {
    out := line;
    if banner.Some? && |banner.value| > 0 {
      out := out + " | Banner: " + Truncate(banner.value, BannerLimit);
      Concat(line, " | Banner: ", Truncate(banner.value, BannerLimit));
    } else {
      assert line + "" == line;
    }
  }

  /** The TLS line, then the certificate line when the peer sent a certificate: verbose mode only. */
  method AddTls(line: string, tls: Option<TlsInfo>, verbose: bool) returns (out: string)
    ensures out == line + TlsText(tls, verbose)
  {
    out := line;
    if tls.Some? && verbose {
      var info := tls.value;
      var head := "\n   TLS: " + info.version + " " + info.cipher;
      out := out + "\n   TLS: " + info.version + " " + info.cipher;
      Concat(line, "\n   TLS: " + info.version, " ");
      Concat(line, "\n   TLS: " + info.version + " ", info.cipher);
      assert out == line + head;
      if info.certificate.Some? {
        var cert := "\n   Cert Subject: " + info.certificate.value.subject;
        out := out + "\n   Cert Subject: " + info.certificate.value.subject;
        Concat(line, head, cert);
      } else {
        assert head + "" == head;
      }
    } else {
      assert line + "" == line;
    }
  }

  /** The QUIC line: verbose mode only. */
  method AddQuic(line: string, quic: Option<QuicInfo>, verbose: bool) returns (out: string)
    ensures out == line + QuicText(quic, verbose)
  {
    out := line;
    if quic.Some? && verbose {
      out := out + "\n   QUIC: " + SupportText(quic.value.supported);
      Concat(line, "\n   QUIC: ", SupportText(quic.value.supported));
    } else {
      assert line + "" == line;
    }
  }

  /** `format_results`: the blocks in order, joined with newlines. */
  method FormatResults(results: seq<ScanResult>, verbose: bool) returns (text: string)
    ensures text == Rendered(results, verbose)
  {
    var output := FormatBlocks(results, verbose);
    text := Join(output, "\n");
  }

  /** The loop of `format_results`: one block per result, appended in order. */
  method FormatBlocks(results: seq<ScanResult>, verbose: bool) returns (output: seq<string>)
    ensures output == Blocks(results, verbose)
  {
    output := [];
    for i := 0 to |results|
      invariant output == Blocks(results[..i], verbose)
    {
      var line := FormatBlock(results[i], verbose);
      TakeOneMore(results, i);
      BlocksSnoc(results[..i], results[i], verbose);
      output := output + [line];
    }
    assert results[..|results|] == results;
  }

  lemma BlocksSnoc(results: seq<ScanResult>, r: ScanResult, verbose: bool)
    ensures Blocks(results + [r], verbose) == Blocks(results, verbose) + [Block(r, verbose)]
  {
    MapSnoc(x => Block(x, verbose), results, r);
  }

  lemma MapSnoc<A, B>(f: A -> B, xs: seq<A>, x: A)
    ensures MapSeq(f, xs + [x]) == MapSeq(f, xs) + [f(x)]
  {
    assert (xs + [x])[..|xs|] == xs;
  }

  /** Block `k` is the block of result `k`. */
  lemma BlocksAt(results: seq<ScanResult>, verbose: bool)
    ensures |Blocks(results, verbose)| == |results|
    ensures forall k :: 0 <= k < |results| ==> Blocks(results, verbose)[k] == Block(results[k], verbose)
  {
    MapAt(r => Block(r, verbose), results);
  }

  lemma {:induction false} MapAt<A, B>(f: A -> B, xs: seq<A>)
    ensures |MapSeq(f, xs)| == |xs|
    ensures forall k :: 0 <= k < |xs| ==> MapSeq(f, xs)[k] == f(xs[k])
    decreases |xs|
  {
    if |xs| > 0 {
      var init := xs[..|xs| - 1];
      MapAt(f, init);
      assert forall k :: 0 <= k < |init| ==> init[k] == xs[k];
    }
  }

  lemma Concat(a: string, b: string, c: string)
    ensures a + b + c == a + (b + c)
  {
  }

  // ===========================================================================
  // What the text promises
  // ===========================================================================

  /** No results give the empty text. */
  lemma NoResults(verbose: bool)
    ensures Rendered([], verbose) == ""
  {
  }

  /** Each further result adds a newline and its block: there is no trailing newline. */
  lemma RenderedAppend(results: seq<ScanResult>, r: ScanResult, verbose: bool)
    requires |results| > 0
    ensures Rendered(results + [r], verbose) == Rendered(results, verbose) + "\n" + Block(r, verbose)
  {
    BlocksSnoc(results, r, verbose);
    JoinSnoc(Blocks(results, verbose), Block(r, verbose), "\n");
  }

  lemma {:induction false} JoinSnoc(xs: seq<string>, x: string, sep: string)
    requires |xs| > 0
    ensures Join(xs + [x], sep) == Join(xs, sep) + sep + x
    decreases |xs|
  {
    if |xs| == 1 {
      assert xs + [x] == [xs[0]] + [x];
      JoinCons(xs[0], [x], sep);
    } else {
      var rest := xs[1..];
      assert xs == [xs[0]] + rest;
      assert xs + [x] == [xs[0]] + (rest + [x]);
      JoinCons(xs[0], rest + [x], sep);
      JoinSnoc(rest, x, sep);
      JoinCons(xs[0], rest, sep);
    }
  }

  /** A single result renders as its block alone. */
  lemma OneResult(r: ScanResult, verbose: bool)
    ensures Rendered([r], verbose) == Block(r, verbose)
  {
    BlocksSnoc([], r, verbose);
    assert [] + [r] == [r];
  }

  /** The status is shown in capitals. */
  lemma StatusTexts()
    ensures StatusText(Open) == "OPEN" && StatusText(Closed) == "CLOSED"
    ensures StatusText(Filtered) == "FILTERED" && StatusText(Unknown) == "UNKNOWN"
  {
    assert Upper("open") == "OPEN";
    assert Upper("closed") == "CLOSED";
    assert Upper("filtered") == "FILTERED";
    assert Upper("unknown") == "UNKNOWN";
  }

  /**
   * Every block starts with its header; a non-empty banner follows it, cut
   * to its first 100 characters; an empty or absent banner adds nothing.
   */
  lemma BlockStartsWithHeader(r: ScanResult, verbose: bool)
    ensures Header(r) <= Block(r, verbose)
    ensures r.banner.Some? && |r.banner.value| > 0 ==>
              Header(r) + " | Banner: " + Truncate(r.banner.value, BannerLimit) <= Block(r, verbose)
    ensures (r.banner == None || r.banner == Some("")) ==> BannerText(r.banner) == ""
  {
    var h, b := Header(r), BannerText(r.banner);
    var t, q := TlsText(r.tlsInfo, verbose), QuicText(r.quicInfo, verbose);
    Concat(h + b, t, q);
    PrefixOf(h + b, t + q);
    Concat(h, b, t + q);
    PrefixOf(h, b + (t + q));
  }

  lemma PrefixOf(a: string, b: string)
    ensures a <= a + b
  {
    assert (a + b)[..|a|] == a;
  }

  /** Without verbose mode the block is the header and banner alone: probe details are never shown. */
  lemma QuietBlock(r: ScanResult)
    ensures Block(r, false) == Header(r) + BannerText(r.banner)
  {
    assert Header(r) + BannerText(r.banner) + "" + "" == Header(r) + BannerText(r.banner);
  }

  /** Verbose mode changes nothing for results without TLS or QUIC details. */
  lemma VerboseNeedsDetails(results: seq<ScanResult>)
    requires forall k :: 0 <= k < |results| ==> results[k].tlsInfo == None && results[k].quicInfo == None
    ensures Rendered(results, true) == Rendered(results, false)
  {
    BlocksAt(results, true);
    BlocksAt(results, false);
    forall k | 0 <= k < |results| ensures Block(results[k], true) == Block(results[k], false) {
      assert TlsText(results[k].tlsInfo, true) == "" && QuicText(results[k].quicInfo, true) == "";
    }
    assert Blocks(results, true) == Blocks(results, false);
  }

  /** In verbose mode a QUIC result says `Supported` exactly when the handshake succeeded. */
  lemma QuicLine(q: QuicInfo)
    ensures QuicText(Some(q), true) == "\n   QUIC: Supported" <==> q.supported
    ensures QuicText(Some(q), false) == ""
  {
    if !q.supported {
      assert ("\n   QUIC: Not supported")[10] != ("\n   QUIC: Supported")[10];
    }
  }

  // ---------------------------------------------------------------------------
  // One line per result
  // ---------------------------------------------------------------------------

  lemma NoNewlineInNumber(i: int)
    ensures '\n' !in IntToString(i)
  {
    var d := NatToString(if i < 0 then -i else i);
    assert forall k :: 0 <= k < |d| ==> IsDigit(d[k]);
    assert '\n' !in d;
    if i < 0 {
      assert IntToString(i) == "-" + d;
    }
  }

  lemma NoNewlineInStatus(s: PortStatus)
    ensures '\n' !in StatusText(s)
  {
    StatusTexts();
  }

  /** Without verbose mode, a block holds a newline only if its target or banner does. */
  lemma QuietBlockOneLine(r: ScanResult)
    requires '\n' !in r.target
    requires r.banner.None? || '\n' !in r.banner.value
    ensures '\n' !in Block(r, false)
  {
    QuietBlock(r);
    NoNewlineInNumber(r.port);
    NoNewlineInStatus(r.status);
    if r.banner.Some? && |r.banner.value| > 0 {
      var t := Truncate(r.banner.value, BannerLimit);
      assert t == r.banner.value[..|t|];
      assert forall k :: 0 <= k < |t| ==> t[k] == r.banner.value[k];
    }
  }

  /**
   * Without verbose mode, when no target and no banner holds a newline,
   * splitting the text at newlines gives back exactly one block per result.
   */
  lemma OneLinePerResult(results: seq<ScanResult>)
    requires |results| > 0
    requires forall k :: 0 <= k < |results| ==> '\n' !in results[k].target
    requires forall k :: 0 <= k < |results| ==> results[k].banner.None? || '\n' !in results[k].banner.value
    ensures Split(Rendered(results, false), '\n') == Blocks(results, false)
  {
    var bs := Blocks(results, false);
    BlocksAt(results, false);
    forall k | 0 <= k < |bs| ensures '\n' !in bs[k] {
      QuietBlockOneLine(results[k]);
    }
    SplitJoin(bs, '\n');
  }
}
