# host-forward: request targeting and SSRF access control, in Dafny

host-forward is a small Node.js forwarding proxy. A client puts the full URL
it wants to reach into the path: `GET /https://api.example.com/v1/chat`.
A WebSocket upgrade may instead give only host and path, and the proxy adds
`ws://` or `wss://`. Before forwarding, the proxy refuses three things:
CONNECT, requests without a usable target, and targets that name or
resolve to private, loopback or link-local space.

This project models that decision pipeline of `src/server.ts` and proves
what it guarantees:

- `text.dfy` (module `Text`) holds the JavaScript string operations the
  pipeline uses. These are ASCII `toLowerCase`, `startsWith`, `endsWith`
  and `split` (which keeps empty pieces), plus decimal digits and their
  value.
- `address_classifier.dfy` (module `AddressClassifier`) covers
  `isPrivateIPv4`, `isPrivateIPv6` and `isForbiddenHost`.
  - The IPv4 test is modelled on four parsed numbers, in the source's
    if-chain order.
  - It is related to an independent table of the six address blocks.
  - The string-level split-and-`Number` guard sits in front of it.
- `target_resolver.dfy` (module `TargetResolver`) covers
  `resolveTargetFromRequest`. Its inputs are the raw path and query, the
  `Upgrade` header and whether the inbound connection is encrypted.
- `ssrf_guard.dfy` (module `SsrfGuard`) covers `resolvesToPrivateAddress`.
  It is an imperative method with the source's loop and early returns,
  proved against the predicate `ResolvesToPrivate`.
- `dispatcher.dfy` (module `Dispatcher`) holds the decisions of
  `handleHttpRequest` and `handleWsUpgrade`.
  - The admission steps both handlers share are written once, as `Admit`.
  - Each handler renders the verdict as an `Outcome`: a JSON error reply, a
    raw status line on the upgrade socket, or forwarding to the normalised
    target.
- `hop_by_hop.dfy` (module `HopByHop`) covers the `proxyReq` handler. The
  outbound request is a class whose header table the loop changes in
  place, one `removeHeader` at a time.
- `replies.dfy` (module `Replies`) writes the refusals and error replies.
  They go onto a `ServerResponse`, whose header block goes out once, or
  onto a `Socket`, which is then destroyed.
- `scenarios.dfy` (module `Scenarios`) works concrete addresses, paths and
  requests through the model.

Three library calls are not re-implemented. Each enters as a total function
value that the lemmas quantify over:

- `net.isIP` (`IsIP`);
- `dns.lookup(hostname, { all: true })` (`Lookup`: a failure, or the
  records resolved);
- the WHATWG `URL` constructor (`ParseUrl`: hostname and `toString()`, or
  the message of the thrown error).

## Model

| member | source | states |
|---|---|---|
| AddressClassifier.IsPrivateIPv4 | src/server.ts:133-140 | the octet tests on four parsed numbers, in the source's order; what they select is stated by `PrivateIPv4Cases`, `OnlyFirstTwoOctets` and `PrivateIPv4MeansPrivateBlock` |
| AddressClassifier.PrivateIPv4Cases | src/server.ts:133-140 | the octet test holds exactly when the first octet is 10, 127 or 0, or the pair is 169.254, 172.16–31 or 192.168 |
| AddressClassifier.OnlyFirstTwoOctets | src/server.ts:133-140 | two addresses that agree on their first two octets get the same answer |
| AddressClassifier.PrivateIPv4MeansPrivateBlock | src/server.ts:134-139 | on octets of at most 255, the test holds exactly when the address lies in one of the six blocks 10/8, 127/8, 169.254/16, 172.16/12, 192.168/16, 0/8, compared as 32-bit numbers |
| AddressClassifier.IsPrivateIPv4Text | src/server.ts:130-141 | `isPrivateIPv4` on its string argument: split on dots, each piece through `Number`, four pieces and no NaN, then the octet tests; its properties are stated by `MalformedIPv4IsNotPrivate`, `DottedQuadRoundTrip` and `IPv4TextIgnoresCase` |
| AddressClassifier.JsNumber | src/server.ts:131 | `Number(part)` is a number exactly when the piece is all decimal digits (the empty piece included) |
| AddressClassifier.MalformedIPv4IsNotPrivate | src/server.ts:131-132 | a text that does not split into four pieces, or whose pieces are not all numbers, is never private |
| AddressClassifier.DottedQuadRoundTrip | src/server.ts:130-141 | the string-level test on the canonical dotted quad of an address gives the octet test's answer |
| AddressClassifier.IPv4TextIgnoresCase | src/server.ts:130-141 | under the decimal-only reading of `Number`, lower-casing the text does not change the IPv4 answer |
| AddressClassifier.IsPrivateIPv6 | src/server.ts:143-148 | after lower-casing, the address is `::1` or begins `fc`, `fd` or `fe80` |
| AddressClassifier.IPv6IgnoresCase | src/server.ts:143-148 | the IPv6 test depends on the address only up to letter case |
| AddressClassifier.ReservedNameCases | src/server.ts:151-160 | a reserved name is the lower-cased `localhost` or a name under one of the seven suffixes, each one spelled out |
| AddressClassifier.IsForbiddenHost | src/server.ts:150-166 | every reserved name is forbidden; any other host is forbidden exactly when `net.isIP` says 4 and the IPv4 test holds, or says 6 and the IPv6 test holds |
| AddressClassifier.ForbiddenHostNames | src/server.ts:150-166 | a reserved name is forbidden whatever `net.isIP` answers, and a name that is neither reserved nor a literal is not forbidden |
| AddressClassifier.ForbiddenHostIgnoresCase | src/server.ts:150-166 | two spellings of a host that differ only in letter case get the same answer, when `net.isIP` classifies them alike |
| TargetResolver.StripLeadingSlash | src/server.ts:104 | exactly one leading `/` is removed when there is one, and nothing else changes |
| TargetResolver.SecondTestIsSubsumed | src/server.ts:106-113 | any text the second test accepts was already accepted by the first, so the second branch is dead |
| TargetResolver.UpgradeTargetHasScheme | src/server.ts:121-123 | a target built for an upgrade carries a scheme the first test accepts |
| TargetResolver.ResolveTarget | src/server.ts:96-128 | a remainder with a scheme (any letter case) is returned verbatim; otherwise there is a target exactly for a `websocket` upgrade with a non-empty remainder, and it is `wss://` or `ws://` by the encrypted flag, then the remainder; every target has a scheme |
| TargetResolver.FullUrlIsKept | src/server.ts:104-108 | `/` + scheme + rest resolves to scheme + rest, character for character, whatever the upgrade header and transport |
| TargetResolver.UpgradePathGetsScheme | src/server.ts:118-124 | a WebSocket upgrade whose path names no scheme goes to the inbound connection's scheme + the path |
| SsrfGuard.ResolvesToPrivateAddress | src/server.ts:331-345 | the walk over the records, with its early returns, answers exactly the guard predicate: a literal by its family's test, a name by whether some record is private for its own family, false when the lookup fails |
| SsrfGuard.LiteralNeedsNoLookup | src/server.ts:332-334 | for a literal, any two resolvers give the same answer, which is the private test of its family |
| SsrfGuard.LookupFailureFailsOpen | src/server.ts:335-344 | a name whose lookup fails is not reported private |
| SsrfGuard.OnePrivateRecordSuffices | src/server.ts:337-340 | one private record anywhere among the answers makes a name private |
| Dispatcher.Admit | src/server.ts:179-229 | the shared admission steps: `NoTarget` exactly when there is no target; `InvalidUrl` with the parser's message exactly when the target does not parse; `Admitted(href)` exactly when the request is admissible with `href` |
| Dispatcher.HandleHttpRequest | src/server.ts:168-229 | a plain request never gets a raw status line, and every error reply has status 400, 403 or 405 |
| Dispatcher.HandleWsUpgrade | src/server.ts:250-283 | an upgrade never gets a JSON reply, and every refusal is the 400 or the 403 status line |
| Dispatcher.ChecksMeanPublic | src/server.ts:209-229 | a host passes both host checks exactly when it is public: not reserved, not a private literal of its family, and, when its lookup succeeds, no private record |
| Dispatcher.HttpForwardsExactlyAdmissible | src/server.ts:168-236 | a plain request is forwarded to `href` exactly when it is not CONNECT, has a target, the target parses to `href`, and its host is public |
| Dispatcher.WsForwardsExactlyAdmissible | src/server.ts:250-290 | an upgrade is forwarded to `href` exactly when it has a target that parses to `href` on a public host |
| Dispatcher.ForwardedLiteralIsOutsidePrivateBlocks | src/server.ts:209-219 | whenever a request is forwarded to a canonical IPv4 literal, that address lies outside all six private blocks |
| Dispatcher.ForwardedNameResolvesOutsidePrivateBlocks | src/server.ts:220-229 | whenever a request is forwarded to a name, none of the canonical IPv4 records the guard's lookup returned lies in a private block |
| Dispatcher.ConnectIsRefused | src/server.ts:172-177 | CONNECT gets 405 `Method Not Allowed` whatever its path and whatever the oracles answer |
| Dispatcher.BadTargetIsBadRequest | src/server.ts:179-207 | a plain request that is not CONNECT gets 400 `Bad request`, with the message naming the expected path shapes, when it has no target, and 400 `Invalid target URL` with the parser's message when its target does not parse; an upgrade of any method gets the 400 status line in both cases |
| Dispatcher.ForbiddenHostNeedsNoLookup | src/server.ts:209-219 | a forbidden host gets 403 `Target host is not allowed` on a plain request that is not CONNECT, and the 403 line on an upgrade of any method, the same reply under any two resolvers |
| Dispatcher.PrivateResolutionIsForbidden | src/server.ts:220-228 | a parsed host that passes the first check but resolves privately gets 403 `Target host resolves to private address` on a plain request that is not CONNECT, and the 403 line on an upgrade of any method |
| Dispatcher.LookupFailureIsForwarded | src/server.ts:341-343 | a name that is not reserved and whose lookup fails is forwarded, on a plain request that is not CONNECT and on an upgrade of any method |
| Dispatcher.WsMirrorsHttp | src/server.ts:255-283 | for a method other than CONNECT, the upgrade handler's verdict is the plain handler's, with 400 as the 400 line and 403 as the 403 line |
| Dispatcher.BracketedLoopbackIsForwarded | src/server.ts:162-164 | as written, `GET /http://[::1]:9000/` is forwarded by both handlers when the parser gives hostname `[::1]` and its lookup fails |
| Dispatcher.Unbracketed | src/server.ts:210 | a bracketed hostname `[a]` is read as `a`; any other hostname is left as it is |
| Dispatcher.HandleHttpRequestUnbracketed | src/server.ts:209-219 | corrected plain handler: a request whose unbracketed host is a private IPv6 literal gets 403 `Target host is not allowed`, and such a request is never forwarded |
| Dispatcher.HandleWsUpgradeUnbracketed | src/server.ts:273-278 | corrected upgrade handler: such a request gets the 403 line and is never forwarded |
| Dispatcher.UnbracketedRefusesPrivateIPv6 | src/server.ts:210-219 | with the corrected reading, any bracketed private IPv6 literal gets 403 before any lookup, on both entry points |
| Dispatcher.UnbracketedRefusesLoopback | src/server.ts:210-219 | with the corrected reading, `GET /http://[::1]:9000/` gets 403 on both entry points |
| Dispatcher.UnbracketedAgreesElsewhere | src/server.ts:209-229 | the corrected handlers answer like the originals whenever the hostname is not bracketed |
| HopByHop.NoHopByHopHeaderRemains | src/server.ts:76-94 | after stripping, no header with any spelling of the nine names is left, and each entry is still filed under its lower-cased name |
| HopByHop.OtherHeadersUnchanged | src/server.ts:88-94 | every other header is kept under the same key with the same name and values, and nothing is added |
| HopByHop.ProxyRequest.RemoveHeader | src/server.ts:91 | removes the entry under the lower-cased name and records a removal of `connection`, `content-length` or `transfer-encoding`, whether or not the header was there; once headers are sent it throws and changes nothing |
| HopByHop.ProxyRequest.StripHopByHop | src/server.ts:88-94 | after the loop the table is the old one without the nine names and the `connection` and `transfer-encoding` removals are recorded (the `content-length` one untouched), or nothing changed when every removal threw; the table stays well keyed |
| Replies.SendJsonError | src/server.ts:174-175 | a JSON refusal sets the status, sends the `{ error, message }` body once and finishes the response |
| Replies.RefuseUpgrade | src/server.ts:257-258 | the status line is written unless the socket is already destroyed, and the socket ends destroyed |
| Replies.FailResponse | src/server.ts:238-246 | the status is written only when no header block went out yet; the body is sent unless the response is finished; a finished response has always sent its header block, before and after |
| Replies.OnProxyErrorResponse | src/server.ts:58-65 | 502 only when nothing was sent yet, and the `Bad gateway` body with the error's message |
| Replies.OnProxyErrorSocket | src/server.ts:66-73 | the 502 status line, then the socket is destroyed |
| Replies.OnForwardThrow | src/server.ts:237-247 | 400 only when nothing was sent yet, and the `Proxy error` body with the error's message |
| Scenarios.TenNetIsPrivate | src/server.ts:134 | `10.1.2.3` is private |
| Scenarios.InsideTwelveBitBlockIsPrivate | src/server.ts:137 | `172.20.0.1` is private |
| Scenarios.AboveTwelveBitBlockIsPublic | src/server.ts:137 | `172.32.0.1` is not private |
| Scenarios.PublicHostIsPublic | src/server.ts:130-141 | `93.184.216.34` is not private |
| Scenarios.PublicResolverIsPublic | src/server.ts:130-141 | `8.8.8.8` is not private |
| Scenarios.IPv6Examples | src/server.ts:143-148 | `::1`, `fd00::1` and `FE80::ABCD` are private; `2001:4860:4860::8888` is not |
| Scenarios.ReservedNameExamples | src/server.ts:151-160 | `localhost`, `a.localhost` and `x.internal` are forbidden whatever `net.isIP` says |
| Scenarios.OrdinaryNameExample | src/server.ts:150-166 | `example.com` is not forbidden by inspection |
| Scenarios.FullUrlPathExample | src/server.ts:104-108 | `/https://example.com/v1?q=1` resolves to the URL itself, query included |
| Scenarios.UpgradePathExamples | src/server.ts:118-124 | `/echo.example.com/socket` becomes `wss://…` on an encrypted upgrade and `ws://…` on a plain one, whatever the header's letter case |
| Scenarios.PrivateResolutionIsRefused | src/server.ts:220-228 | a name that resolves only to `192.168.1.5` gets 403 on a plain request and the 403 line on an upgrade |
| Scenarios.PrivateLiteralIsRefused | src/server.ts:209-219 | `GET /http://127.0.0.1:9000/` gets 403 `Target host is not allowed` |

## Left out

- Forwarding itself (`proxy.web`, `proxy.ws` and the streaming that
  follows) is foreign streaming I/O. The model ends at the `Forward`
  outcome. The error paths of that hand-off are modelled in `Replies`.
- Building the raw path (`new URL(req.url || "/", "http://" + host)`,
  src/server.ts:98-101) is URL parsing, and the raw path is an input. A
  `Host` header that makes this construction throw is therefore not
  modelled. That call sits outside every `try` in both handlers
  (src/server.ts:179, 255). The thrown `TypeError` rejects the handler's
  promise. `http.createServer` and the `upgrade` listener ignore that
  promise, so the rejection goes unhandled and no reply is written. Under
  Node's default `--unhandled-rejections=throw` (Node 15 and later; the
  process file passes no Node flags) the process then exits, dropping
  every open connection. Two requests that do this: an HTTP/1.0 request
  without `Host` (`host` = `""`, and `new URL("/", "http://")` throws),
  and `Host: a b`.
- `net.isIP`, `dns.lookup` and the WHATWG `URL` constructor are library
  calls. They are oracles, not re-implementations.
- Dispatcher.ForwardedNameResolvesOutsidePrivateBlocks: `Lookup` is the
  guard's own lookup (src/server.ts:331-345) and nothing else. When
  forwarding, `proxy.web` and `proxy.ws` (src/server.ts:235, 289) resolve
  the name again, through `http.request`'s lookup or the upstream proxy
  agent. That second resolution is separate and is not modelled, so the
  lemma is about the records the guard saw, not the address finally
  connected to. A name that answers differently the second time (DNS
  rebinding) passes the guard.
- Dispatcher.ConnectIsRefused: is about the handler as written. Node's
  `http.Server` sends a CONNECT request to its `connect` event, never to
  the request listener, and with no `connect` listener it closes the
  socket. The 405 at src/server.ts:172-177 is therefore not what a client
  of the running server receives. Event dispatch is not modelled.
- `JSON.stringify` is not modelled. A reply body is the `{ error, message }`
  value it would serialise. A body without `message` (the 405) has
  `message` = `None`.
- Listener setup, TLS file reading, `dotenv`, `ProxyAgent`, the certificate
  flag and port parsing (src/server.ts:11-54, 300-329) are configuration
  and I/O.
- `async`/`await` and concurrent connections are left out. Each request is
  decided on its own, in sequence.
- `ecosystem.config.cjs` holds process-supervisor settings with no logic.
- `ProxyRequest.StripHopByHop` models the `proxyReq` handler on its own.
  The `Forward` outcome carries no headers, so nothing connects the two.
  Upgrades are not stripped, because http-proxy raises `proxyReqWs` for
  them, not `proxyReq`.
- Text.Lower: lower-cases ASCII letters only. Hostnames reach the checks
  already lower-cased by the URL parser, and header values are decoded as
  Latin-1, so full Unicode case mapping is not modelled.
- AddressClassifier.JsNumber: models `Number` only on strings of decimal
  digits, where it is exact and `Number("")` is 0. Every other piece is
  taken as NaN, although `Number` also accepts spaces, signs, `0x…`, `1e2`
  and fractions. Behind `net.isIP` returning 4, and on family-4 records,
  the pieces are decimal octets anyway.
- AddressClassifier.IsPrivateIPv6: is the source's prefix test as written.
  `fe80` covers only part of fe80::/10, and IPv4-mapped forms such as
  `::ffff:127.0.0.1` are not caught. The model states this test and does
  not claim these ranges.
- HopByHop.ProxyRequest.RemoveHeader: models the header table and the
  three removal flags it sets. It does not model how Node's header writer
  then frames the body. Reading Node's `_storeHeader` (not executed): an
  outbound request with neither `Content-Length` nor `Transfer-Encoding`
  whose TE removal is recorded gets no framing at all and is marked as the
  connection's last. So a streamed `Transfer-Encoding: chunked` upload
  without `Content-Length` would reach the origin with its body unframed.
  A recorded `connection` removal also ends upstream keep-alive.
- HopByHop.ProxyRequest.StripHopByHop: with `headersSent` fixed for the
  whole loop, either every removal throws or none does. Headers going out
  in the middle of the loop cannot happen in one synchronous handler and
  are not modelled.
- The `ServerResponse` and `Socket` classes of `Replies` model only the fields these
  replies touch, not Node's stream machinery.

## Findings

| source | as written | input that shows it | evidently intended | confidence | as-written member | corrected member |
|---|---|---|---|---|---|---|
| src/server.ts:162-164 | the host checks receive `parsedUrl.hostname`, which the WHATWG parser gives in brackets for an IPv6 literal (`[::1]`); `net.isIP("[::1]")` is 0, so the name is looked up, the lookup of a bracketed literal fails, and the request is forwarded by the fail-open path | `GET /http://[::1]:9000/` (also `http://[fd00::1]/`, `http://[fe80::1]/`), on plain requests and on upgrades alike (src/server.ts:274, 279) | the IPv6 checks see the address without its brackets, so loopback, unique-local and link-local literals are refused with 403 | not executed; follows from documented `URL.hostname` and `net.isIP` behaviour | Dispatcher.BracketedLoopbackIsForwarded | Dispatcher.HandleHttpRequestUnbracketed |
