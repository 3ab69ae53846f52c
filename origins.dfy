/** The CORS allow-list the wrapper wants the gateway's Control UI to accept: origins kept in
    the persisted gateway config, origins configured through the environment, and the origin
    of the request being served (src/server.js, lines 137-232). */
module Origins {
  import opened Text
  import opened StringSets

  /** A request header as Node hands it over: missing, one value, or a list of values. */
  datatype Header = Absent | Single(value: string) | Multiple(values: seq<string>)

  /** `new URL(input).origin`, or "" where the URL constructor throws. The WHATWG URL parser
      is outside this model; every use passes it in. */
  type UrlOrigin = string -> string

  /** The parts of an incoming request the origin inference reads. `protocol` is
      `req.protocol` when that is a string; `encrypted` is `req.socket.encrypted`. */
  datatype Request = Request(
    origin: Header,
    forwardedProto: Header,
    forwardedHost: Header,
    host: Header,
    protocol: Option<string>,
    encrypted: bool)

  /** The environment variables the static origins come from, "" when unset:
      OPENCLAW_CONTROL_UI_ALLOWED_ORIGINS, OPENCLAW_PUBLIC_URL, PUBLIC_URL, RAILWAY_PUBLIC_DOMAIN. */
  datatype StaticOrigins = StaticOrigins(
    allowedOriginsEnv: string,
    openclawPublicUrl: string,
    publicUrl: string,
    railwayPublicDomain: string)

  /** `firstHeaderValue`: the first value of a header, trimmed; "" when there is none. */
  function FirstHeaderValue(h: Header): (r: string)
    ensures h.Absent? ==> r == ""
    ensures h.Multiple? && h.values == [] ==> r == ""
    ensures h.Single? ==> r == Trim(h.value)
    ensures h.Multiple? && h.values != [] ==> r == Trim(h.values[0])
  {
    match h
    case Absent => ""
    case Single(v) => Trim(v)
    case Multiple(vs) => if vs == [] then "" else Trim(vs[0])
  }

  /** `normalizeOrigin`: blank input gives "", anything else the URL origin of the trimmed input. */
  function NormalizeOrigin(url: UrlOrigin, value: string): (r: string)
    ensures Trim(value) == "" ==> r == ""
    ensures Trim(value) != "" ==> r == url(Trim(value))
    ensures r != "" ==> r == url(Trim(value))
  {
    var input := Trim(value);
    if input == "" then "" else url(input)
  }

  /** The separators of `split(/[,\s]+/)`. */
  predicate IsListSep(c: char) {
    c == ',' || IsJsSpace(c)
  }

  function FirstSep(s: string): (i: nat)
    ensures i <= |s|
    ensures i < |s| ==> IsListSep(s[i])
    ensures forall k :: 0 <= k < i ==> !IsListSep(s[k])
  {
    if s == [] || IsListSep(s[0]) then 0 else 1 + FirstSep(s[1..])
  }

  function SkipSeps(s: string): (r: string)
    ensures |r| <= |s| && r == s[|s| - |r|..]
    ensures s != [] && IsListSep(s[0]) ==> |r| < |s|
    ensures forall k :: 0 <= k < |s| - |r| ==> IsListSep(s[k])
    ensures r == [] || !IsListSep(r[0])
  {
    if s != [] && IsListSep(s[0]) then SkipSeps(s[1..]) else s
  }

  predicate NoListSep(t: string) {
    forall i :: 0 <= i < |t| ==> !IsListSep(t[i])
  }

  /** `String(value).split(/[,\s]+/)`: the pieces between maximal runs of commas and white space. */
  function SplitOriginList(s: string): (r: seq<string>)
    ensures |r| >= 1
    ensures forall k :: 0 <= k < |r| ==> NoListSep(r[k])
    decreases |s|
  {
    var i := FirstSep(s);
    if i == |s| then [s] else [s[..i]] + SplitOriginList(SkipSeps(s[i..]))
  }

  /** A non-empty run of separators. */
  predicate IsSepRun(t: string) {
    t != [] && forall i :: 0 <= i < |t| ==> IsListSep(t[i])
  }

  /** The maximal runs of separators in `s`, in order: what `SplitOriginList` cuts at. */
  function SeparatorRuns(s: string): (r: seq<string>)
    ensures |r| + 1 == |SplitOriginList(s)|
    decreases |s|
  {
    var i := FirstSep(s);
    if i == |s| then []
    else
      var t := s[i..];
      var rest := SkipSeps(t);
      [t[..|t| - |rest|]] + SeparatorRuns(rest)
  }

  /** The pieces with the runs put back between them. */
  function Interleave(pieces: seq<string>, runs: seq<string>): string
    requires |pieces| == |runs| + 1
    decreases |runs|
  {
    if runs == [] then pieces[0] else pieces[0] + runs[0] + Interleave(pieces[1..], runs[1..])
  }

  lemma InterleaveCons(head: string, run: string, pieces: seq<string>, runs: seq<string>)
    requires |pieces| == |runs| + 1
    ensures Interleave([head] + pieces, [run] + runs) == head + run + Interleave(pieces, runs)
  {
    assert ([head] + pieces)[1..] == pieces && ([run] + runs)[1..] == runs;
  }

  /** A string is its prefix, the middle part of its suffix, and its tail. */
  lemma CutThree(s: string, i: nat, j: nat)
    requires i <= j <= |s|
    ensures s == s[..i] + s[i..][..j - i] + s[j..]
  {
    assert s[i..][..j - i] == s[i..j];
  }

  /** The characters `SkipSeps` drops from a string that starts with a separator form a run. */
  lemma SkippedRun(t: string)
    requires t != [] && IsListSep(t[0])
    ensures IsSepRun(t[..|t| - |SkipSeps(t)|])
  {
    var run := t[..|t| - |SkipSeps(t)|];
    forall j | 0 <= j < |run| ensures IsListSep(run[j]) { assert run[j] == t[j]; }
  }

  /** The first run of separators, and the text after it. */
  lemma SeparatorRunsStep(s: string) returns (run: string, rest: string)
    requires FirstSep(s) < |s|
    ensures IsSepRun(run) && |rest| < |s|
    ensures SeparatorRuns(s) == [run] + SeparatorRuns(rest)
  {
    var t := s[FirstSep(s)..];
    rest := SkipSeps(t);
    run := t[..|t| - |rest|];
    SkippedRun(t);
  }

  /** What the list is cut at are non-empty runs of separators. */
  lemma {:induction false} SeparatorRunsAreRuns(s: string)
    ensures AllSepRuns(SeparatorRuns(s))
    decreases |s|
  {
    if FirstSep(s) < |s| {
      var run, rest := SeparatorRunsStep(s);
      SeparatorRunsAreRuns(rest);
      ConsRuns(run, SeparatorRuns(rest));
    }
  }

  predicate AllSepRuns(runs: seq<string>) {
    forall k :: 0 <= k < |runs| ==> IsSepRun(runs[k])
  }

  lemma ConsRuns(run: string, runs: seq<string>)
    requires IsSepRun(run) && AllSepRuns(runs)
    ensures AllSepRuns([run] + runs)
  {
  }

  /** Splitting loses nothing and keeps the order: putting the separator runs back between
      the pieces gives the input again. With the pieces free of separators, the runs
      non-empty runs of separators and the inner pieces non-empty
      (`SplitOriginListInnerNonEmpty`), this makes the pieces exactly the text between
      maximal separator runs. */
  lemma {:induction false} SplitOriginListJoin(s: string)
    ensures Interleave(SplitOriginList(s), SeparatorRuns(s)) == s
    decreases |s|
  {
    var i := FirstSep(s);
    if i < |s| {
      var t := s[i..];
      var rest := SkipSeps(t);
      SplitOriginListJoin(rest);
      InterleaveCons(s[..i], t[..|t| - |rest|], SplitOriginList(rest), SeparatorRuns(rest));
      CutThree(s, i, |s| - |rest|);
      assert t[|t| - |rest|..] == s[|s| - |rest|..];
    }
  }

  /** No piece strictly between the first and the last is empty. */
  predicate InnerPiecesNonEmpty(pieces: seq<string>) {
    forall k :: 0 < k < |pieces| - 1 ==> pieces[k] != ""
  }

  /** Text that starts with a non-separator yields a non-empty first piece. */
  lemma FirstPieceNonEmpty(s: string)
    requires s != [] && !IsListSep(s[0])
    ensures SplitOriginList(s)[0] != ""
  {
    var i := FirstSep(s);
    assert i > 0;
    if i < |s| {
      assert SplitOriginList(s)[0] == s[..i];
    }
  }

  /** Only the first and the last piece can be empty (text that starts or ends with a
      separator run): together with `SplitOriginListJoin` and `SeparatorRunsAreRuns` this
      makes every run a maximal one, so "a,,b" gives ["a", "b"] and never ["a", "", "b"]. */
  lemma {:induction false} SplitOriginListInnerNonEmpty(s: string)
    ensures InnerPiecesNonEmpty(SplitOriginList(s))
    decreases |s|
  {
    var i := FirstSep(s);
    if i < |s| {
      var rest := SkipSeps(s[i..]);
      var tail := SplitOriginList(rest);
      assert SplitOriginList(s) == [s[..i]] + tail;
      SplitOriginListInnerNonEmpty(rest);
      if rest != [] {
        FirstPieceNonEmpty(rest);
      } else {
        assert FirstSep(rest) == |rest|;
        assert |tail| == 1;
      }
    }
  }

  /** `items.map(normalizeOrigin)`. */
  function NormalizeAll(url: UrlOrigin, items: seq<string>): (r: seq<string>)
    ensures |r| == |items|
    ensures forall i :: 0 <= i < |items| ==> r[i] == NormalizeOrigin(url, items[i])
  {
    if items == [] then [] else [NormalizeOrigin(url, items[0])] + NormalizeAll(url, items[1..])
  }

  /** The non-empty results of a list, in order (`.filter(Boolean)`). */
  function NonEmpty(xs: seq<string>): (r: seq<string>)
    ensures forall o :: o in r <==> o in xs && o != ""
  {
    if xs == [] then []
    else
      assert xs == [xs[0]] + xs[1..];
      if xs[0] == "" then NonEmpty(xs[1..]) else [xs[0]] + NonEmpty(xs[1..])
  }

  /** The non-empty origins of a list of candidates, in order (`.map(normalizeOrigin).filter(Boolean)`). */
  function NormalizeEach(url: UrlOrigin, items: seq<string>): (r: seq<string>)
    ensures forall o :: o in r <==> o in NormalizeAll(url, items) && o != ""
  {
    NonEmpty(NormalizeAll(url, items))
  }

  /** `parseOriginList`: every non-empty origin of the pieces of the list, each once. */
  function ParseOriginList(url: UrlOrigin, value: string): (r: seq<string>)
    ensures NoDups(r)
    ensures forall o :: o in r <==> o in NormalizeEach(url, SplitOriginList(value))
  {
    Dedup(NormalizeEach(url, SplitOriginList(value)))
  }

  /** The `https?://` prefix, matched case-insensitively, removed once. */
  function StripScheme(s: string): (r: string)
    ensures |r| <= |s| && r == s[|s| - |r|..]
  {
    if |s| >= 8 && ToLowerAscii(s[..8]) == "https://" then s[8..]
    else if |s| >= 7 && ToLowerAscii(s[..7]) == "http://" then s[7..]
    else s
  }

  /** Where `replace(/\/.*$/, "")` cuts: the first `/` followed by no line terminator. */
  function CutIndex(s: string): (i: nat)
    ensures i <= |s|
    ensures i < |s| ==> s[i] == '/'
  {
    if s == [] then 0
    else if s[0] == '/' && NoLineTerminator(s[1..]) then 0
    else 1 + CutIndex(s[1..])
  }

  /** No `/` before the cut point is followed by a line-terminator-free rest. */
  lemma {:induction false} CutIndexFirst(s: string, k: nat)
    requires k < CutIndex(s) && s[k] == '/'
    ensures !NoLineTerminator(s[k + 1..])
  {
    if k > 0 {
      CutIndexFirst(s[1..], k - 1);
      assert s[k + 1..] == s[1..][k..];
    }
  }

  /** `normalizeDomainHost`: the host part of a domain setting, without scheme and path. */
  function NormalizeDomainHost(value: string): (r: string)
    ensures |r| <= |Trim(value)|
    ensures NoLineTerminator(Trim(value)) ==> '/' !in r
    ensures |r| <= |StripScheme(Trim(value))| && r == StripScheme(Trim(value))[..|r|]
    ensures |r| < |StripScheme(Trim(value))| ==> StripScheme(Trim(value))[|r|] == '/'
  {
    var raw := Trim(value);
    if raw == "" then ""
    else
      var s := StripScheme(raw);
      CutHasNoSlash(raw, s);
      s[..CutIndex(s)]
  }

  lemma CutHasNoSlash(raw: string, s: string)
    requires |s| <= |raw| && s == raw[|raw| - |s|..]
    ensures NoLineTerminator(raw) ==> '/' !in s[..CutIndex(s)]
  {
    if NoLineTerminator(raw) {
      var i := CutIndex(s);
      forall k | 0 <= k < i ensures s[k] != '/' {
        var t := s[k + 1..];
        forall m | 0 <= m < |t| ensures !IsLineTerminator(t[m]) {
          assert t[m] == raw[|raw| - |s| + k + 1 + m];
        }
        if s[k] == '/' { CutIndexFirst(s, k); }
      }
    }
  }

  /** A public domain given as a URL reduces to its host: scheme and path are dropped.
      `rest` and `url` name the two halves so that no reassociation of the
      concatenation is needed. */
  lemma DomainHostOfUrl(scheme: string, host: string, path: string, rest: string, url: string)
    requires scheme == "https://" || scheme == "http://"
    requires host != [] && !IsJsSpace(host[0]) && '/' !in host
    requires NoLineTerminator(path) && (path == [] || !IsJsSpace(path[|path| - 1]))
    requires rest == host + "/" + path && url == scheme + rest
    ensures NormalizeDomainHost(url) == host
  {
    UrlIsTrimmed(scheme, host, path, rest, url);
    HostOfTrimmedUrl(scheme, host, path, rest, url);
  }

  lemma HostOfTrimmedUrl(scheme: string, host: string, path: string, rest: string, url: string)
    requires scheme == "https://" || scheme == "http://"
    requires '/' !in host && NoLineTerminator(path)
    requires rest == host + "/" + path && url == scheme + rest && Trim(url) == url
    ensures NormalizeDomainHost(url) == host
  {
    UnfoldDomainHost(url);
    StripSchemeOf(scheme, rest);
    CutIndexOf(host, path, rest);
  }

  /** A domain given as a bare host (no white space on its edges, no `/`) is its own host:
      without a `/` there is neither a scheme to strip nor a path to cut. */
  lemma {:induction false} BareHostUnchanged(h: string)
    requires h == [] || (!IsJsSpace(h[0]) && !IsJsSpace(h[|h| - 1]))
    requires '/' !in h
    ensures NormalizeDomainHost(h) == h
  {
    TrimFixed(h);
    if h != [] {
      NoSchemeWithoutSlash(h);
      CutIndexNoSlash(h);
    }
  }

  /** A domain given as a scheme, in any letter case, followed by a host with no path
      reduces to the host. */
  lemma {:induction false} DomainHostOfSchemeHost(scheme: string, host: string, url: string)
    requires ToLowerAscii(scheme) == "https://" || ToLowerAscii(scheme) == "http://"
    requires host != [] && !IsJsSpace(host[|host| - 1]) && '/' !in host
    requires url == scheme + host
    ensures NormalizeDomainHost(url) == host
  {
    SchemeHostTrimmed(scheme, host, url);
    UnfoldDomainHost(url);
    StripAnyScheme(scheme, host, url);
    CutIndexNoSlash(host);
  }

  lemma SchemeHostTrimmed(scheme: string, host: string, url: string)
    requires ToLowerAscii(scheme) == "https://" || ToLowerAscii(scheme) == "http://"
    requires host != [] && !IsJsSpace(host[|host| - 1])
    requires url == scheme + host
    ensures Trim(url) == url
  {
    assert ToLowerAscii(scheme)[0] == 'h';
    assert url[0] == scheme[0] && url[|url| - 1] == host[|host| - 1];
    TrimFixed(url);
  }

  lemma NoSchemeWithoutSlash(h: string)
    requires '/' !in h
    ensures StripScheme(h) == h
  {
    if |h| >= 7 {
      assert ToLowerAscii(h[..7])[6] == LowerChar(h[6]) != '/';
    }
    if |h| >= 8 {
      assert ToLowerAscii(h[..8])[6] == LowerChar(h[6]) != '/';
    }
  }

  lemma StripAnyScheme(scheme: string, rest: string, url: string)
    requires ToLowerAscii(scheme) == "https://" || ToLowerAscii(scheme) == "http://"
    requires rest != [] && url == scheme + rest
    ensures StripScheme(url) == rest
  {
    if ToLowerAscii(scheme) == "https://" {
      assert url[..8] == scheme && url[8..] == rest;
    } else {
      assert url[..7] == scheme && url[7..] == rest;
      assert ToLowerAscii(url[..8])[4] == LowerChar(scheme[4]) == ':';
    }
  }

  lemma {:induction false} CutIndexNoSlash(s: string)
    requires '/' !in s
    ensures CutIndex(s) == |s|
  {
    if s != [] {
      assert '/' !in s[1..] by {
        forall k | 0 <= k < |s[1..]| ensures s[1..][k] != '/' { assert s[1..][k] == s[k + 1]; }
      }
      CutIndexNoSlash(s[1..]);
    }
  }

  lemma UrlIsTrimmed(scheme: string, host: string, path: string, rest: string, url: string)
    requires scheme == "https://" || scheme == "http://"
    requires path == [] || !IsJsSpace(path[|path| - 1])
    requires rest == host + "/" + path && url == scheme + rest
    ensures Trim(url) == url
  {
    assert url[0] == scheme[0] == 'h';
    assert rest[|rest| - 1] == if path == [] then '/' else path[|path| - 1];
    assert url[|url| - 1] == rest[|rest| - 1];
    TrimFixed(url);
  }

  lemma UnfoldDomainHost(v: string)
    requires Trim(v) == v && v != ""
    ensures NormalizeDomainHost(v) == StripScheme(v)[..CutIndex(StripScheme(v))]
  {
  }

  lemma StripSchemeOf(scheme: string, rest: string)
    requires scheme == "https://" || scheme == "http://"
    requires rest != []
    ensures StripScheme(scheme + rest) == rest
  {
    if scheme == "https://" {
      StripHttps(scheme + rest);
    } else {
      StripHttp(scheme + rest);
    }
  }

  lemma StripHttps(v: string)
    requires |v| >= 8 && v[..8] == "https://"
    ensures StripScheme(v) == v[8..]
  {
    LowerFixed(v[..8]);
  }

  lemma StripHttp(v: string)
    requires |v| >= 8 && v[..7] == "http://"
    ensures StripScheme(v) == v[7..]
  {
    assert ToLowerAscii(v[..8])[4] == ':';
    LowerFixed(v[..7]);
  }

  /** Text without upper-case letters is its own lower case. */
  lemma LowerFixed(s: string)
    requires forall i :: 0 <= i < |s| ==> !('A' <= s[i] <= 'Z')
    ensures ToLowerAscii(s) == s
  {
  }

  lemma {:induction false} CutIndexOf(host: string, path: string, s: string)
    requires '/' !in host && NoLineTerminator(path)
    requires s == host + "/" + path
    ensures CutIndex(s) == |host|
    ensures s[..|host|] == host
  {
    if host == [] {
      assert s[1..] == path;
    } else {
      assert s[1..] == host[1..] + "/" + path;
      CutIndexOf(host[1..], path, s[1..]);
    }
  }

  /** The `https://` and `http://` origins of the platform-assigned domain, if it is set. */
  function PlatformOrigins(cfg: StaticOrigins): (r: seq<string>)
    ensures NormalizeDomainHost(cfg.railwayPublicDomain) == "" ==> r == []
    ensures NormalizeDomainHost(cfg.railwayPublicDomain) != "" ==>
      r == ["https://" + NormalizeDomainHost(cfg.railwayPublicDomain), "http://" + NormalizeDomainHost(cfg.railwayPublicDomain)]
  {
    var host := NormalizeDomainHost(cfg.railwayPublicDomain);
    if host != "" then ["https://" + host, "http://" + host] else []
  }

  /** `configuredControlUiOrigins`: the listed origins, the public URL's origin, and the
      `https://` and `http://` forms of the platform domain, each once. */
  function ConfiguredOrigins(url: UrlOrigin, cfg: StaticOrigins): (r: seq<string>)
    ensures NoDups(r)
    ensures forall o :: o in r <==>
      o in ParseOriginList(url, Trim(cfg.allowedOriginsEnv))
      || (o == PublicUrlOrigin(url, cfg) && o != "")
      || o in PlatformOrigins(cfg)
  {
    var listed := ParseOriginList(url, Trim(cfg.allowedOriginsEnv));
    var pub := PublicUrlOrigin(url, cfg);
    Dedup(listed + (if pub != "" then [pub] else []) + PlatformOrigins(cfg))
  }

  /** The origin of OPENCLAW_PUBLIC_URL, or of PUBLIC_URL when the former is empty. A
      blank but set OPENCLAW_PUBLIC_URL still wins over PUBLIC_URL and gives no origin. */
  function PublicUrlOrigin(url: UrlOrigin, cfg: StaticOrigins): (r: string)
    ensures Trim(cfg.openclawPublicUrl) != "" ==> r == url(Trim(cfg.openclawPublicUrl))
    ensures cfg.openclawPublicUrl != "" && Trim(cfg.openclawPublicUrl) == "" ==> r == ""
    ensures cfg.openclawPublicUrl == "" ==> r == NormalizeOrigin(url, cfg.publicUrl)
  {
    NormalizeOrigin(url, if cfg.openclawPublicUrl != "" then cfg.openclawPublicUrl else cfg.publicUrl)
  }

  /** The protocol a request arrived over when no forwarded protocol is given. */
  function FallbackProto(q: Request): string {
    if q.protocol.Some? && q.protocol.value != "" then q.protocol.value
    else if q.encrypted then "https"
    else "http"
  }

  /** The first comma-separated entry of a forwarded header, trimmed. */
  function FirstForwarded(h: Header): string {
    Trim(Split(FirstHeaderValue(h), ',')[0])
  }

  /** `inferRequestOrigin`: the Origin header if it normalises to an origin; otherwise the
      origin built from the forwarded (or transport) protocol and the forwarded (or Host)
      host; "" when there is no host at all. A missing request infers nothing. */
  function InferRequestOrigin(url: UrlOrigin, req: Option<Request>): (r: string)
    ensures req.None? ==> r == ""
    ensures req.Some? && NormalizeOrigin(url, FirstHeaderValue(req.value.origin)) != "" ==>
      r == NormalizeOrigin(url, FirstHeaderValue(req.value.origin))
    ensures (req.Some? && NormalizeOrigin(url, FirstHeaderValue(req.value.origin)) == ""
             && FirstForwarded(req.value.forwardedHost) == "" && FirstHeaderValue(req.value.host) == "")
            ==> r == ""
    ensures (req.Some? && NormalizeOrigin(url, FirstHeaderValue(req.value.origin)) == ""
             && FirstForwarded(req.value.forwardedHost) != "")
            ==> r == NormalizeOrigin(url,
        (if FirstForwarded(req.value.forwardedProto) != "" then FirstForwarded(req.value.forwardedProto)
         else FallbackProto(req.value)) + "://" + FirstForwarded(req.value.forwardedHost))
    ensures (req.Some? && NormalizeOrigin(url, FirstHeaderValue(req.value.origin)) == ""
             && FirstForwarded(req.value.forwardedHost) == "" && FirstHeaderValue(req.value.host) != "")
            ==> r == NormalizeOrigin(url,
        (if FirstForwarded(req.value.forwardedProto) != "" then FirstForwarded(req.value.forwardedProto)
         else FallbackProto(req.value)) + "://" + FirstHeaderValue(req.value.host))
  {
    match req
    case None => ""
    case Some(q) =>
      var explicit := NormalizeOrigin(url, FirstHeaderValue(q.origin));
      if explicit != "" then explicit
      else
        var xfProto := FirstForwarded(q.forwardedProto);
        var xfHost := FirstForwarded(q.forwardedHost);
        var host := if xfHost != "" then xfHost else FirstHeaderValue(q.host);
        if host == "" then ""
        else NormalizeOrigin(url, (if xfProto != "" then xfProto else FallbackProto(q)) + "://" + host)
  }

  /** The origins persisted in the gateway config (`readConfiguredControlUiAllowedOrigins`),
      given the items of its `gateway.controlUi.allowedOrigins` array. */
  function PersistedOrigins(url: UrlOrigin, items: seq<string>): (r: seq<string>)
    ensures forall o :: o in r ==> o != ""
    ensures forall o :: o in r <==>
      o != "" && exists i :: 0 <= i < |items| && o == NormalizeOrigin(url, items[i])
  {
    NormalizeEach(url, items)
  }

  /** `buildDesiredControlUiAllowedOrigins`: the sorted union of the persisted origins, the
      configured origins and the inferred request origin when there is one. */
  function BuildDesired(url: UrlOrigin, persisted: seq<string>, cfg: StaticOrigins, req: Option<Request>): (r: seq<string>)
    ensures Sorted(r) && NoDups(r)
    ensures forall o :: o in r <==>
      o in PersistedOrigins(url, persisted)
      || o in ConfiguredOrigins(url, cfg)
      || o == InferRequestOrigin(url, req) != ""
  {
    var r := Sort(Dedup(Candidates(url, persisted, cfg, req)));
    SortedNoDups(r);
    r
  }

  /** The origins the desired list is made of, before duplicates are dropped and it is sorted. */
  function Candidates(url: UrlOrigin, persisted: seq<string>, cfg: StaticOrigins, req: Option<Request>): (c: seq<string>)
    ensures forall o :: o in c <==>
      o in PersistedOrigins(url, persisted)
      || o in ConfiguredOrigins(url, cfg)
      || o == InferRequestOrigin(url, req) != ""
  {
    var requestOrigin := InferRequestOrigin(url, req);
    PersistedOrigins(url, persisted) + ConfiguredOrigins(url, cfg) + (if requestOrigin != "" then [requestOrigin] else [])
  }

  /** The desired list depends only on which origins are persisted, not on their order or
      repetition in the config file. */
  lemma DesiredIgnoresPersistedOrder(url: UrlOrigin, p1: seq<string>, p2: seq<string>, cfg: StaticOrigins, req: Option<Request>)
    requires forall x :: x in p1 <==> x in p2
    ensures BuildDesired(url, p1, cfg, req) == BuildDesired(url, p2, cfg, req)
  {
    SameNormalized(url, p1, p2);
    SortedUnique(BuildDesired(url, p1, cfg, req), BuildDesired(url, p2, cfg, req));
  }

  lemma SameNormalized(url: UrlOrigin, p1: seq<string>, p2: seq<string>)
    requires forall x :: x in p1 <==> x in p2
    ensures forall o :: o in PersistedOrigins(url, p1) <==> o in PersistedOrigins(url, p2)
  {
    NormalizedSubset(url, p1, p2);
    NormalizedSubset(url, p2, p1);
  }

  lemma NormalizedSubset(url: UrlOrigin, p1: seq<string>, p2: seq<string>)
    requires forall x :: x in p1 ==> x in p2
    ensures forall o :: o in NormalizeAll(url, p1) ==> o in NormalizeAll(url, p2)
  {
    var n1, n2 := NormalizeAll(url, p1), NormalizeAll(url, p2);
    forall o | o in n1 ensures o in n2 {
      var i :| 0 <= i < |n1| && n1[i] == o;
      NormalizedMember(url, p1[i], p2);
    }
  }

  lemma NormalizedMember(url: UrlOrigin, x: string, p: seq<string>)
    requires x in p
    ensures NormalizeOrigin(url, x) in NormalizeAll(url, p)
  {
    var j :| 0 <= j < |p| && p[j] == x;
    assert NormalizeAll(url, p)[j] == NormalizeOrigin(url, x);
  }
}
