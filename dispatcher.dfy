/** The forwarding dispatcher's decisions (`handleHttpRequest`,
    src/server.ts:168-248, and `handleWsUpgrade`, src/server.ts:250-298):
    which reply an inbound request or upgrade gets, or the target it is
    forwarded to.  The two handlers run the same admission steps, so those
    are written once, as `Admit`; the handlers differ in the CONNECT test
    and in how a refusal is written.  The WHATWG URL parser (`new URL`),
    `net.isIP` and `dns.lookup` enter as oracles. */
module Dispatcher {
  import opened Wrappers
  import opened Text
  import opened AddressClassifier
  import opened TargetResolver
  import opened SsrfGuard

  /** What the dispatcher reads of an inbound request. */
  datatype Request = Request(
    verb: string,            // `req.method`
    rawPath: string,         // path and query, percent-encoding kept (src/server.ts:101)
    upgrade: Option<string>, // the `Upgrade` header, if sent
    encrypted: bool)         // `req.socket.encrypted === true`

  /** `new URL(target)`: its `hostname` and its `toString()`, or the message
      of the error it throws. */
  datatype UrlParse = Parsed(hostname: string, href: string) | ParseError(message: string)

  type ParseUrl = string -> UrlParse

  /** Why a target is refused, or the normalised target it is admitted as. */
  datatype Verdict =
    | NoTarget
    | InvalidUrl(message: string)
    | ForbiddenHost
    | ResolvesPrivate
    | Admitted(target: string)

  /** What the proxy does with one request: a JSON error reply with its
      status, `error` and `message` fields (src/server.ts:173-228); a raw
      status line written on the upgrade socket before it is destroyed
      (src/server.ts:255-283); or forwarding to the normalised target. */
  datatype Outcome =
    | JsonError(status: nat, error: string, message: Option<string>)
    | RawStatusLine(line: string)
    | Forward(target: string)

  const MissingTargetMessage := "Path must start with full URL, e.g. /https://example.com/api"
  const BadRequestLine := "HTTP/1.1 400 Bad Request\r\n\r\n"
  const ForbiddenLine := "HTTP/1.1 403 Forbidden\r\n\r\n"

  /** The admission steps both handlers share, in their order: a target
      must be found (src/server.ts:179, 255), must parse (src/server.ts:195-207,
      264-271), its host must not be forbidden as written (src/server.ts:210,
      274), and must not resolve to a private address (src/server.ts:220, 279). */
  function Admit(req: Request, isIP: IsIP, parseUrl: ParseUrl, lookup: Lookup): (r: Verdict)
    ensures r == NoTarget <==> ResolveTarget(req.rawPath, req.upgrade, req.encrypted).None?
    ensures var t := ResolveTarget(req.rawPath, req.upgrade, req.encrypted);
            t.Some? && parseUrl(t.value).ParseError? ==> r == InvalidUrl(parseUrl(t.value).message)
    ensures r.InvalidUrl? ==> var t := ResolveTarget(req.rawPath, req.upgrade, req.encrypted);
                              t.Some? && parseUrl(t.value).ParseError?
    ensures r.Admitted? ==> Admissible(req, isIP, parseUrl, lookup, r.target)
    ensures forall href :: Admissible(req, isIP, parseUrl, lookup, href) ==> r == Admitted(href)
  {
    match ResolveTarget(req.rawPath, req.upgrade, req.encrypted)
    case None => NoTarget
    case Some(target) =>
      match parseUrl(target)
      case ParseError(message) => InvalidUrl(message)
      case Parsed(hostname, href) =>
        ChecksMeanPublic(hostname, isIP, lookup);
        if IsForbiddenHost(hostname, isIP) then ForbiddenHost
        else if ResolvesToPrivate(hostname, isIP, lookup) then ResolvesPrivate
        else Admitted(href)
  }

  /** `handleHttpRequest`: CONNECT is refused first, then the admission
      steps, each refusal as a JSON error. */
  function HandleHttpRequest(req: Request, isIP: IsIP, parseUrl: ParseUrl, lookup: Lookup): (r: Outcome)
    ensures !r.RawStatusLine?
    ensures r.JsonError? ==> r.status in {400, 403, 405}
  {
    if req.verb == "CONNECT" then
      JsonError(405, "Method Not Allowed", None)
    else
      match Admit(req, isIP, parseUrl, lookup)
      case NoTarget => JsonError(400, "Bad request", Some(MissingTargetMessage))
      case InvalidUrl(message) => JsonError(400, "Invalid target URL", Some(message))
      case ForbiddenHost => JsonError(403, "Forbidden", Some("Target host is not allowed"))
      case ResolvesPrivate => JsonError(403, "Forbidden", Some("Target host resolves to private address"))
      case Admitted(target) => Forward(target)
  }

  /** `handleWsUpgrade`: no method test; each refusal is a raw status line. */
  function HandleWsUpgrade(req: Request, isIP: IsIP, parseUrl: ParseUrl, lookup: Lookup): (r: Outcome)
    ensures !r.JsonError?
    ensures r.RawStatusLine? ==> r.line in {BadRequestLine, ForbiddenLine}
  {
    match Admit(req, isIP, parseUrl, lookup)
    case NoTarget => RawStatusLine(BadRequestLine)
    case InvalidUrl(_) => RawStatusLine(BadRequestLine)
    case ForbiddenHost => RawStatusLine(ForbiddenLine)
    case ResolvesPrivate => RawStatusLine(ForbiddenLine)
    case Admitted(target) => Forward(target)
  }

  // ---------------------------------------------------------------------
  // What an admitted target satisfies

  /** A host the proxy may reach: not a reserved name, not a private literal
      of its family, and, for a name whose lookup succeeded, no private
      record among the answers. */
  predicate HostIsPublic(hostname: string, isIP: IsIP, lookup: Lookup) {
    && !IsReservedName(hostname)
    && (isIP(hostname) == V4 ==> !IsPrivateIPv4Text(hostname))
    && (isIP(hostname) == V6 ==> !IsPrivateIPv6(hostname))
    && (isIP(hostname) == NotIp && lookup(hostname).Resolved? ==>
          forall i :: 0 <= i < |lookup(hostname).records| ==> !IsPrivateRecord(lookup(hostname).records[i]))
  }

  /** The request names a target that parses to `href`, on a public host. */
  predicate Admissible(req: Request, isIP: IsIP, parseUrl: ParseUrl, lookup: Lookup, href: string) {
    var target := ResolveTarget(req.rawPath, req.upgrade, req.encrypted);
    && target.Some?
    && parseUrl(target.value).Parsed?
    && parseUrl(target.value).href == href
    && HostIsPublic(parseUrl(target.value).hostname, isIP, lookup)
  }

  /** A host passes both checks of the pipeline exactly when it is public. */
  lemma ChecksMeanPublic(hostname: string, isIP: IsIP, lookup: Lookup)
    ensures (!IsForbiddenHost(hostname, isIP) && !ResolvesToPrivate(hostname, isIP, lookup))
            <==> HostIsPublic(hostname, isIP, lookup)
  {
    if isIP(hostname) == NotIp && lookup(hostname).Resolved? {
      var records := lookup(hostname).records;
      if exists i :: 0 <= i < |records| && IsPrivateRecord(records[i]) {
        var i :| 0 <= i < |records| && IsPrivateRecord(records[i]);
        assert !HostIsPublic(hostname, isIP, lookup);
      }
    }
  }

  /** A plain request is forwarded to `href` exactly when it is not CONNECT
      and is admissible with `href`. */
  lemma HttpForwardsExactlyAdmissible(req: Request, isIP: IsIP, parseUrl: ParseUrl, lookup: Lookup, href: string)
    ensures HandleHttpRequest(req, isIP, parseUrl, lookup) == Forward(href)
            <==> req.verb != "CONNECT" && Admissible(req, isIP, parseUrl, lookup, href)
  {
    var target := ResolveTarget(req.rawPath, req.upgrade, req.encrypted);
    if target.Some? && parseUrl(target.value).Parsed? {
      ChecksMeanPublic(parseUrl(target.value).hostname, isIP, lookup);
    }
  }

  /** An upgrade is forwarded to `href` exactly when it is admissible with
      `href`, whatever its method. */
  lemma WsForwardsExactlyAdmissible(req: Request, isIP: IsIP, parseUrl: ParseUrl, lookup: Lookup, href: string)
    ensures HandleWsUpgrade(req, isIP, parseUrl, lookup) == Forward(href)
            <==> Admissible(req, isIP, parseUrl, lookup, href)
  {
    var target := ResolveTarget(req.rawPath, req.upgrade, req.encrypted);
    if target.Some? && parseUrl(target.value).Parsed? {
      ChecksMeanPublic(parseUrl(target.value).hostname, isIP, lookup);
    }
  }

  /** An IPv4 literal that is forwarded to lies outside every private
      block, when it is written as a canonical dotted quad. */
  lemma ForwardedLiteralIsOutsidePrivateBlocks(
    req: Request, isIP: IsIP, parseUrl: ParseUrl, lookup: Lookup, href: string, ip: IPv4)
    requires HandleHttpRequest(req, isIP, parseUrl, lookup) == Forward(href)
          || HandleWsUpgrade(req, isIP, parseUrl, lookup) == Forward(href)
    requires WellFormed(ip)
    requires parseUrl(ResolveTarget(req.rawPath, req.upgrade, req.encrypted).value).hostname == DottedQuad(ip)
    requires isIP(DottedQuad(ip)) == V4
    ensures !InPrivateBlock(ip)
  {
    HttpForwardsExactlyAdmissible(req, isIP, parseUrl, lookup, href);
    WsForwardsExactlyAdmissible(req, isIP, parseUrl, lookup, href);
    DottedQuadRoundTrip(ip);
    PrivateIPv4MeansPrivateBlock(ip);
  }

  /** A name that is forwarded to has no resolved IPv4 record in a private
      block, when its records are canonical dotted quads. */
  lemma ForwardedNameResolvesOutsidePrivateBlocks(
    req: Request, isIP: IsIP, parseUrl: ParseUrl, lookup: Lookup, href: string, k: nat, ip: IPv4)
    requires HandleHttpRequest(req, isIP, parseUrl, lookup) == Forward(href)
          || HandleWsUpgrade(req, isIP, parseUrl, lookup) == Forward(href)
    requires WellFormed(ip)
    requires var h := parseUrl(ResolveTarget(req.rawPath, req.upgrade, req.encrypted).value).hostname;
             isIP(h) == NotIp && lookup(h).Resolved? && k < |lookup(h).records|
             && lookup(h).records[k] == DnsRecord(4, DottedQuad(ip))
    ensures !InPrivateBlock(ip)
  {
    HttpForwardsExactlyAdmissible(req, isIP, parseUrl, lookup, href);
    WsForwardsExactlyAdmissible(req, isIP, parseUrl, lookup, href);
    DottedQuadRoundTrip(ip);
    PrivateIPv4MeansPrivateBlock(ip);
  }

  // ---------------------------------------------------------------------
  // Order of the checks

  /** CONNECT is refused with 405 whatever its path and whatever the
      oracles say. */
  lemma ConnectIsRefused(req: Request, isIP: IsIP, parseUrl: ParseUrl, lookup: Lookup)
    requires req.verb == "CONNECT"
    ensures HandleHttpRequest(req, isIP, parseUrl, lookup) == JsonError(405, "Method Not Allowed", None)
  {
  }

  /** A request without a target, or whose target does not parse, gets 400
      before any host check. */
  lemma BadTargetIsBadRequest(req: Request, isIP: IsIP, parseUrl: ParseUrl, lookup: Lookup)
    requires var t := ResolveTarget(req.rawPath, req.upgrade, req.encrypted);
             t.None? || parseUrl(t.value).ParseError?
    ensures var t := ResolveTarget(req.rawPath, req.upgrade, req.encrypted);
            req.verb != "CONNECT" && t.None? ==>
              HandleHttpRequest(req, isIP, parseUrl, lookup)
                == JsonError(400, "Bad request", Some(MissingTargetMessage))
    ensures var t := ResolveTarget(req.rawPath, req.upgrade, req.encrypted);
            req.verb != "CONNECT" && t.Some? && parseUrl(t.value).ParseError? ==>
              HandleHttpRequest(req, isIP, parseUrl, lookup)
                == JsonError(400, "Invalid target URL", Some(parseUrl(t.value).message))
    ensures HandleWsUpgrade(req, isIP, parseUrl, lookup) == RawStatusLine(BadRequestLine)
  {
  }

  /** A forbidden host is refused with 403 before the lookup is consulted:
      any two resolvers lead to the same reply. */
  lemma ForbiddenHostNeedsNoLookup(req: Request, isIP: IsIP, parseUrl: ParseUrl, lookup1: Lookup, lookup2: Lookup)
    requires var t := ResolveTarget(req.rawPath, req.upgrade, req.encrypted);
             t.Some? && parseUrl(t.value).Parsed? && IsForbiddenHost(parseUrl(t.value).hostname, isIP)
    ensures req.verb != "CONNECT" ==>
              HandleHttpRequest(req, isIP, parseUrl, lookup1) == HandleHttpRequest(req, isIP, parseUrl, lookup2)
                                                              == JsonError(403, "Forbidden", Some("Target host is not allowed"))
    ensures HandleWsUpgrade(req, isIP, parseUrl, lookup1) == HandleWsUpgrade(req, isIP, parseUrl, lookup2)
                                                          == RawStatusLine(ForbiddenLine)
  {
  }

  /** A host that passes the first check but resolves privately is refused
      with 403 on the plain path and the 403 line on an upgrade. */
  lemma PrivateResolutionIsForbidden(req: Request, isIP: IsIP, parseUrl: ParseUrl, lookup: Lookup)
    requires var t := ResolveTarget(req.rawPath, req.upgrade, req.encrypted);
             && t.Some? && parseUrl(t.value).Parsed?
             && var h := parseUrl(t.value).hostname;
                !IsForbiddenHost(h, isIP) && ResolvesToPrivate(h, isIP, lookup)
    ensures req.verb != "CONNECT" ==>
              HandleHttpRequest(req, isIP, parseUrl, lookup)
                == JsonError(403, "Forbidden", Some("Target host resolves to private address"))
    ensures HandleWsUpgrade(req, isIP, parseUrl, lookup) == RawStatusLine(ForbiddenLine)
  {
  }

  /** Fail-open: a name that is not reserved and whose lookup fails is
      forwarded. */
  lemma LookupFailureIsForwarded(req: Request, isIP: IsIP, parseUrl: ParseUrl, lookup: Lookup)
    requires var t := ResolveTarget(req.rawPath, req.upgrade, req.encrypted);
             && t.Some? && parseUrl(t.value).Parsed?
             && var h := parseUrl(t.value).hostname;
                !IsReservedName(h) && isIP(h) == NotIp && lookup(h) == LookupFailed
    ensures var href := parseUrl(ResolveTarget(req.rawPath, req.upgrade, req.encrypted).value).href;
            (req.verb != "CONNECT" ==> HandleHttpRequest(req, isIP, parseUrl, lookup) == Forward(href))
            && HandleWsUpgrade(req, isIP, parseUrl, lookup) == Forward(href)
  {
  }

  /** The upgrade handler gives the same verdict as the plain handler, with
      each JSON refusal as the raw status line of its status. */
  lemma WsMirrorsHttp(req: Request, isIP: IsIP, parseUrl: ParseUrl, lookup: Lookup)
    requires req.verb != "CONNECT"
    ensures var h := HandleHttpRequest(req, isIP, parseUrl, lookup);
            HandleWsUpgrade(req, isIP, parseUrl, lookup) ==
              match h
              case Forward(t) => Forward(t)
              case JsonError(status, _, _) => RawStatusLine(if status == 400 then BadRequestLine else ForbiddenLine)
              case RawStatusLine(line) => RawStatusLine(line)
  {
  }

  // ---------------------------------------------------------------------
  // IPv6 literals in a target URL

  /** The WHATWG parser gives an IPv6 literal's `hostname` in brackets
      (`[::1]`), which `net.isIP` does not accept.  As written, such a host
      is judged as a name: not reserved, then looked up, and the lookup of a
      bracketed literal fails, so the request is let through, on both entry
      points. */
  lemma BracketedLoopbackIsForwarded(isIP: IsIP, parseUrl: ParseUrl, lookup: Lookup)
    requires parseUrl("http://[::1]:9000/") == Parsed("[::1]", "http://[::1]:9000/")
    requires isIP("[::1]") == NotIp
    requires lookup("[::1]") == LookupFailed
    ensures HandleHttpRequest(Request("GET", "/http://[::1]:9000/", None, false), isIP, parseUrl, lookup)
            == Forward("http://[::1]:9000/")
    ensures HandleWsUpgrade(Request("GET", "/http://[::1]:9000/", None, false), isIP, parseUrl, lookup)
            == Forward("http://[::1]:9000/")
  {
    BracketedLoopbackTarget();
    NotReservedByLastChar("[::1]");
  }

  /** The path of the request above names its URL as it stands. */
  lemma BracketedLoopbackTarget()
    ensures ResolveTarget("/http://[::1]:9000/", None, false) == Some("http://[::1]:9000/")
  {
    LowerOfLowerCase("http://");
    FullUrlIsKept("http://", "[::1]:9000/", None, false);
    BracketedLoopbackJoins();
  }

  /** The literals of the request above, taken apart. */
  lemma BracketedLoopbackJoins()
    ensures "/http://[::1]:9000/" == "/" + "http://" + "[::1]:9000/"
    ensures "http://[::1]:9000/" == "http://" + "[::1]:9000/"
    ensures "[::1]" == "[" + "::1" + "]"
  {
  }

  /** A hostname written as an IPv6 literal in URL form: in brackets. */
  predicate IsBracketed(hostname: string) {
    |hostname| >= 2 && hostname[0] == '[' && hostname[|hostname| - 1] == ']'
  }

  /** The host the checks should see: an IPv6 literal without its
      brackets, any other host as it is. */
  function Unbracketed(hostname: string): (r: string)
    ensures IsBracketed(hostname) ==> hostname == "[" + r + "]"
    ensures !IsBracketed(hostname) ==> r == hostname
    ensures forall a :: hostname == "[" + a + "]" ==> r == a
  {
    if IsBracketed(hostname) then hostname[1..|hostname| - 1] else hostname
  }

  /** The URL parser as the corrected checks read it: the same result with
      the hostname unbracketed. */
  function UnbracketedParse(parseUrl: ParseUrl): ParseUrl {
    (s: string) =>
      match parseUrl(s)
      case Parsed(hostname, href) => Parsed(Unbracketed(hostname), href)
      case ParseError(message) => ParseError(message)
  }

  /** The request names a target whose host, once unbracketed, is a private
      IPv6 literal. */
  predicate PrivateIPv6Target(req: Request, isIP: IsIP, parseUrl: ParseUrl) {
    var t := ResolveTarget(req.rawPath, req.upgrade, req.encrypted);
    && t.Some? && parseUrl(t.value).Parsed?
    && var h := Unbracketed(parseUrl(t.value).hostname);
       isIP(h) == V6 && IsPrivateIPv6(h)
  }

  /** `handleHttpRequest` with the host checks applied to the unbracketed
      hostname; the forwarded target is the parser's, unchanged. */
  function HandleHttpRequestUnbracketed(req: Request, isIP: IsIP, parseUrl: ParseUrl, lookup: Lookup): (r: Outcome)
    ensures req.verb != "CONNECT" && PrivateIPv6Target(req, isIP, parseUrl) ==>
              r == JsonError(403, "Forbidden", Some("Target host is not allowed"))
    ensures r.Forward? ==> req.verb != "CONNECT" && !PrivateIPv6Target(req, isIP, parseUrl)
  {
    HandleHttpRequest(req, isIP, UnbracketedParse(parseUrl), lookup)
  }

  /** `handleWsUpgrade` with the same correction. */
  function HandleWsUpgradeUnbracketed(req: Request, isIP: IsIP, parseUrl: ParseUrl, lookup: Lookup): (r: Outcome)
    ensures PrivateIPv6Target(req, isIP, parseUrl) ==> r == RawStatusLine(ForbiddenLine)
    ensures r.Forward? ==> !PrivateIPv6Target(req, isIP, parseUrl)
  {
    HandleWsUpgrade(req, isIP, UnbracketedParse(parseUrl), lookup)
  }

  /** Corrected: a bracketed private IPv6 literal is refused with 403 before
      any lookup, on both entry points. */
  lemma UnbracketedRefusesPrivateIPv6(req: Request, isIP: IsIP, parseUrl: ParseUrl, lookup: Lookup, address: string, href: string)
    requires req.verb != "CONNECT"
    requires var t := ResolveTarget(req.rawPath, req.upgrade, req.encrypted);
             t.Some? && parseUrl(t.value) == Parsed("[" + address + "]", href)
    requires isIP(address) == V6 && IsPrivateIPv6(address)
    ensures HandleHttpRequestUnbracketed(req, isIP, parseUrl, lookup)
            == JsonError(403, "Forbidden", Some("Target host is not allowed"))
    ensures HandleWsUpgradeUnbracketed(req, isIP, parseUrl, lookup) == RawStatusLine(ForbiddenLine)
  {
  }

  /** Corrected, on the request above: `[::1]` is refused. */
  lemma UnbracketedRefusesLoopback(isIP: IsIP, parseUrl: ParseUrl, lookup: Lookup)
    requires parseUrl("http://[::1]:9000/") == Parsed("[::1]", "http://[::1]:9000/")
    requires isIP("::1") == V6
    ensures HandleHttpRequestUnbracketed(Request("GET", "/http://[::1]:9000/", None, false), isIP, parseUrl, lookup)
            == JsonError(403, "Forbidden", Some("Target host is not allowed"))
    ensures HandleWsUpgradeUnbracketed(Request("GET", "/http://[::1]:9000/", None, false), isIP, parseUrl, lookup)
            == RawStatusLine(ForbiddenLine)
  {
    BracketedLoopbackTarget();
    LoopbackIsPrivateIPv6();
    UnbracketedRefusesPrivateIPv6(Request("GET", "/http://[::1]:9000/", None, false), isIP, parseUrl, lookup,
                                  "::1", "http://[::1]:9000/");
  }

  lemma LoopbackIsPrivateIPv6()
    ensures IsPrivateIPv6("::1")
  {
    LowerOfLowerCase("::1");
  }

  /** The correction changes nothing when the hostname is not bracketed. */
  lemma UnbracketedAgreesElsewhere(req: Request, isIP: IsIP, parseUrl: ParseUrl, lookup: Lookup)
    requires var t := ResolveTarget(req.rawPath, req.upgrade, req.encrypted);
             t.Some? && parseUrl(t.value).Parsed? ==> !IsBracketed(parseUrl(t.value).hostname)
    ensures HandleHttpRequestUnbracketed(req, isIP, parseUrl, lookup) == HandleHttpRequest(req, isIP, parseUrl, lookup)
    ensures HandleWsUpgradeUnbracketed(req, isIP, parseUrl, lookup) == HandleWsUpgrade(req, isIP, parseUrl, lookup)
  {
  }
}
