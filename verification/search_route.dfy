/** The paid search route (app/api/search/route.ts): the rate-limit gate,
    the lazily built and memoised x402 resource server, the dispatch on the
    x402 library's three-way result, the protected LeakOsint handler, and
    settlement. The x402 library, the upstream API, the URL parser and the
    header decoders are foreign: their answers are parameters, and every call
    the route makes to them is recorded, in order, in a trace of events. */
module SearchRoute {
  import opened Wrappers
  import opened Strings
  import opened Http
  import opened RateLimiter

  // -----------------------------------------------------------------------
  // Configuration
  // -----------------------------------------------------------------------

  /** The environment variables the route reads (None when unset). */
  datatype Env = Env(
    apiToken: Option<string>,        // OSINT_API_TOKEN
    price: Option<string>,           // X402_PRICE
    network: Option<string>,         // X402_NETWORK
    evmAddress: Option<string>,      // EVM_ADDRESS
    evmAdress: Option<string>,       // EVM_ADRESS (the common misspelling)
    facilitatorUrl: Option<string>)  // FACILITATOR_URL

  /** JavaScript's `v || fallback` on an optional string: the empty string
      counts as missing. */
  function OrElse(v: Option<string>, fallback: string): string {
    if v.Some? && v.value != "" then v.value else fallback
  }

  predicate Present(v: Option<string>) {
    v.Some? && v.value != ""
  }

  const DefaultPrice := "$0.15"
  const DefaultNetwork := "eip155:8453"
  const DefaultPayTo := "0x69D51B18C1EfE88A9302a03A60127d98eD3D307D"
  /** The `X-RateLimit-Limit` header value; the route writes it as a literal. */
  const RateLimitHeaderValue := "30"

  function Price(env: Env): string { OrElse(env.price, DefaultPrice) }

  function Network(env: Env): string { OrElse(env.network, DefaultNetwork) }

  /** The payee: EVM_ADDRESS, else EVM_ADRESS, else the built-in address. */
  function PayTo(env: Env): (r: string)
    ensures Present(env.evmAddress) ==> r == env.evmAddress.value
    ensures !Present(env.evmAddress) && Present(env.evmAdress) ==> r == env.evmAdress.value
    ensures !Present(env.evmAddress) && !Present(env.evmAdress) ==> r == DefaultPayTo
  {
    OrElse(env.evmAddress, OrElse(env.evmAdress, DefaultPayTo))
  }

  /** What the route declares for `POST /api/search` to the x402 library. */
  datatype RouteConfig = RouteConfig(
    scheme: string, price: string, network: string, payTo: string,
    description: string, mimeType: string, unpaidBody: Body)

  function SearchRouteConfig(env: Env): (r: RouteConfig)
    ensures r.scheme == "exact" && r.payTo == PayTo(env) && r.network == Network(env)
    // the unpaid 402 body restates exactly the configured price
    ensures r.unpaidBody == map["error" := Str("Payment required"), "price" := Str(r.price)]
    ensures Present(env.price) ==> r.price == env.price.value
    ensures !Present(env.price) ==> r.price == "$0.15"
  {
    RouteConfig("exact", Price(env), Network(env), PayTo(env),
      "OSINT search (paid)", "application/json",
      map["error" := Str("Payment required"), "price" := Str(Price(env))])
  }

  // -----------------------------------------------------------------------
  // Facilitator URL
  // -----------------------------------------------------------------------

  /** The parts of a parsed URL the route looks at. */
  datatype Url = Url(hostname: string, port: string)

  predicate IsLocalHost(h: string) {
    h == "localhost" || h == "127.0.0.1"
  }

  /** `u` parses to a local URL on a different port than the local `origin`. */
  predicate OtherLocalPort(u: Option<Url>, origin: Url) {
    && u.Some? && IsLocalHost(u.value.hostname)
    && IsLocalHost(origin.hostname) && u.value.port != origin.port
  }

  function DefaultFacilitator(origin: string): string {
    origin + "/api/x402"
  }

  /** The configured facilitator URL before the localhost correction. */
  function ConfiguredFacilitator(raw: Option<string>, origin: string): (r: string)
    ensures !Present(raw) ==> r == DefaultFacilitator(origin)
    ensures Present(raw) && "/" <= raw.value ==> r == origin + raw.value
    ensures Present(raw) && !("/" <= raw.value) ==> r == raw.value
  {
    if Present(raw) then
      if "/" <= raw.value then origin + raw.value else raw.value
    else DefaultFacilitator(origin)
  }

  /** The facilitator base URL: FACILITATOR_URL made absolute against the
      origin, or `origin/api/x402`, the latter also replacing a localhost URL
      on another port than a localhost origin. `parse` is the URL parser;
      None stands for a parse error, which is ignored. */
  function ResolveFacilitatorUrl(raw: Option<string>, origin: string, originUrl: Url,
                                 parse: string -> Option<Url>): (r: string)
    ensures r == ConfiguredFacilitator(raw, origin) || r == DefaultFacilitator(origin)
    ensures OtherLocalPort(parse(ConfiguredFacilitator(raw, origin)), originUrl) ==>
      r == DefaultFacilitator(origin)
    ensures !OtherLocalPort(parse(ConfiguredFacilitator(raw, origin)), originUrl) ==>
      r == ConfiguredFacilitator(raw, origin)
  {
    var candidate := ConfiguredFacilitator(raw, origin);
    if OtherLocalPort(parse(candidate), originUrl) then DefaultFacilitator(origin) else candidate
  }

  /** Provided the parser reads `origin/api/x402` as the origin's own host and
      port, the chosen facilitator is never a localhost URL on another port. */
  lemma FacilitatorNotOtherLocalPort(raw: Option<string>, origin: string, originUrl: Url,
                                     parse: string -> Option<Url>)
    requires parse(DefaultFacilitator(origin)) == Some(originUrl)
    ensures !OtherLocalPort(parse(ResolveFacilitatorUrl(raw, origin, originUrl, parse)), originUrl)
  {
  }

  // -----------------------------------------------------------------------
  // Calls to collaborators, and their outcomes
  // -----------------------------------------------------------------------

  /** The JSON payload sent to the upstream lookup API. */
  datatype UpstreamRequest = UpstreamRequest(
    token: string, request: string, limit: Value, lang: Value, format: string)

  /** Every call the route makes to code outside it, in order. */
  datatype Event =
    | InitServer(facilitatorUrl: string)  // x402HTTPResourceServer.initialize
    | ProcessRequest                      // processHTTPRequest
    | DecodePaymentRequired               // decodePaymentRequiredHeader
    | DecodePaymentSignature              // decodePaymentSignatureHeader
    | RunHandler                          // runLeakOsint
    | FetchUpstream(payload: UpstreamRequest)
    | Settle                              // processSettlement

  function Count(trace: seq<Event>, e: Event): (n: nat)
    ensures n <= |trace|
    ensures n == 0 <==> e !in trace
  {
    if trace == [] then 0 else Count(trace[..|trace| - 1], e) + (if trace[|trace| - 1] == e then 1 else 0)
  }

  lemma CountAppend(a: seq<Event>, b: seq<Event>, e: Event)
    ensures Count(a + b, e) == Count(a, e) + Count(b, e)
  {
    if b != [] {
      assert (a + b)[..|a + b| - 1] == a + b[..|b| - 1];
      CountAppend(a, b[..|b| - 1], e);
    } else {
      assert a + b == a;
    }
  }

  // -----------------------------------------------------------------------
  // The memoised resource server
  // -----------------------------------------------------------------------

  /** The resource server the route builds: its facilitator and route table. */
  datatype Server = Server(facilitatorUrl: string, route: RouteConfig)

  /** The module-level `httpServerPromise`, seen sequentially: a settled
      server, or nothing (never built, or its initialisation failed). */
  datatype ServerCell = Unset | Ready(server: Server)

  /** `getHttpServer(origin)`. `initFails` is what `initialize()` would throw,
      if it throws; `parse` is the URL parser (None: `new URL` throws). */
  function GetHttpServer(cell: ServerCell, origin: string, env: Env,
                         parse: string -> Option<Url>, initFails: Option<Error>)
    : (r: (ServerCell, Attempt<Server>, seq<Event>))
    // a settled server is reused: nothing is rebuilt or re-initialised
    ensures cell.Ready? ==> r == (cell, Done(cell.server), [])
    // otherwise a server is built and initialised once
    ensures cell.Unset? && parse(origin).Some? ==>
      && r.2 == [InitServer(ResolveFacilitatorUrl(env.facilitatorUrl, origin, parse(origin).value, parse))]
      && (initFails.None? ==>
            && r.1.Done? && r.0 == Ready(r.1.value)
            && r.1.value.route == SearchRouteConfig(env)
            && r.1.value.facilitatorUrl == r.2[0].facilitatorUrl)
      // a failed initialisation leaves the cell empty so that the next call retries
      && (initFails.Some? ==> r.0 == Unset && r.1 == Threw(initFails.value))
    // an origin that is not a URL throws before anything is built
    ensures cell.Unset? && parse(origin).None? ==> r.0 == Unset && r.1.Threw? && r.2 == []
  {
    match cell
    case Ready(s) => (cell, Done(s), [])
    case Unset =>
      match parse(origin)
      case None => (Unset, Threw(Error("TypeError", "Invalid URL")), [])
      case Some(originUrl) =>
        var url := ResolveFacilitatorUrl(env.facilitatorUrl, origin, originUrl, parse);
        var server := Server(url, SearchRouteConfig(env));
        match initFails
        case None => (Ready(server), Done(server), [InitServer(url)])
        case Some(e) => (Unset, Threw(e), [InitServer(url)])
  }

  /** Successive `getHttpServer` calls, one per (origin, initialisation
      outcome); returns the final cell, the results and all events. */
  function GetHttpServerAll(cell: ServerCell, env: Env, parse: string -> Option<Url>,
                            calls: seq<(string, Option<Error>)>)
    : (r: (ServerCell, seq<Attempt<Server>>, seq<Event>))
    ensures |r.1| == |calls|
    decreases |calls|
  {
    if calls == [] then (cell, [], [])
    else
      var first := GetHttpServer(cell, calls[0].0, env, parse, calls[0].1);
      var rest := GetHttpServerAll(first.0, env, parse, calls[1..]);
      (rest.0, [first.1] + rest.1, first.2 + rest.2)
  }

  predicate IsInit(e: Event) { e.InitServer? }

  function InitCount(trace: seq<Event>): (n: nat)
    ensures n <= |trace|
  {
    if trace == [] then 0 else InitCount(trace[..|trace| - 1]) + (if IsInit(trace[|trace| - 1]) then 1 else 0)
  }

  lemma InitCountAppend(a: seq<Event>, b: seq<Event>)
    ensures InitCount(a + b) == InitCount(a) + InitCount(b)
  {
    if b != [] {
      assert (a + b)[..|a + b| - 1] == a + b[..|b| - 1];
      InitCountAppend(a, b[..|b| - 1]);
    } else {
      assert a + b == a;
    }
  }

  /** Memoisation: once a server is ready, any number of further calls
      initialise nothing and all return that same server. */
  lemma {:induction false} ReadyServerReused(s: Server, env: Env, parse: string -> Option<Url>,
                                              calls: seq<(string, Option<Error>)>)
    ensures var r := GetHttpServerAll(Ready(s), env, parse, calls);
      && r.0 == Ready(s)
      && InitCount(r.2) == 0
      && forall i :: 0 <= i < |calls| ==> r.1[i] == Done(s)
    decreases |calls|
  {
    if calls != [] {
      ReadyServerReused(s, env, parse, calls[1..]);
      var rest := GetHttpServerAll(Ready(s), env, parse, calls[1..]);
      assert GetHttpServerAll(Ready(s), env, parse, calls).2 == [] + rest.2;
      assert [] + rest.2 == rest.2;
      var r := GetHttpServerAll(Ready(s), env, parse, calls);
      assert r.1 == [Done(s)] + rest.1;
      forall i | 1 <= i < |calls| ensures r.1[i] == Done(s) {
        assert r.1[i] == rest.1[i - 1];
      }
    }
  }

  /** Reset on failure: starting empty, while initialisation keeps failing
      every call initialises afresh; after the first success it is never
      initialised again. In all, at most one initialisation succeeds, and
      the number of initialisations is the position of the first success. */
  lemma {:induction false} InitialisedUntilFirstSuccess(env: Env, parse: string -> Option<Url>,
                                                         calls: seq<(string, Option<Error>)>, k: nat)
    requires k <= |calls|
    requires forall i :: 0 <= i < |calls| ==> parse(calls[i].0).Some?
    requires forall i :: 0 <= i < k ==> calls[i].1.Some?
    requires k < |calls| ==> calls[k].1.None?
    ensures var r := GetHttpServerAll(Unset, env, parse, calls);
      && InitCount(r.2) == (if k < |calls| then k + 1 else k)
      && (k < |calls| <==> r.0.Ready?)
      && forall i :: 0 <= i < k ==> r.1[i].Threw?
    decreases |calls|
  {
    if calls != [] {
      var first := GetHttpServer(Unset, calls[0].0, env, parse, calls[0].1);
      assert InitCount(first.2) == 1 by {
        assert first.2[..0] == [];
      }
      var rest := GetHttpServerAll(first.0, env, parse, calls[1..]);
      var r := GetHttpServerAll(Unset, env, parse, calls);
      InitCountAppend(first.2, rest.2);
      if k == 0 {
        ReadyServerReused(first.1.value, env, parse, calls[1..]);
      } else {
        InitialisedUntilFirstSuccess(env, parse, calls[1..], k - 1);
        assert r.1 == [first.1] + rest.1;
        forall i | 0 <= i < k ensures r.1[i].Threw? {
          if i > 0 { assert r.1[i] == rest.1[i - 1]; }
        }
      }
    }
  }

  // -----------------------------------------------------------------------
  // The protected handler: runLeakOsint
  // -----------------------------------------------------------------------

  /** The JSON request body `{request, limit?, lang?}`; None marks an absent
      property. */
  datatype SearchBody = SearchBody(query: Option<Value>, limit: Option<Value>, lang: Option<Value>)

  /** What the upstream `fetch` produced. */
  datatype UpstreamOutcome =
    | NetworkFailure(error: Error)      // fetch itself threw
    | NotOk(status: int)                // a response outside 200..299
    | OkUnparsable(error: Error)        // apiResponse.json() threw
    | OkJson(data: Body)

  /** Only the first line of the query is forwarded. */
  function FirstLine(q: string): (r: string)
    ensures r <= q && '\n' !in r
    ensures r == q || q[|r|] == '\n'
  {
    BeforeChar(q, '\n')
  }

  function ErrorCode(data: Body): Option<Value> {
    if "Error code" in data && Truthy(data["Error code"]) then Some(data["Error code"]) else None
  }

  /** `runLeakOsint(request)`. `body` is the request body as parsed (a
      `Threw` when it is not JSON). Returns the response or the thrown error,
      and the calls made. */
  function RunLeakOsint(apiToken: Option<string>, body: Attempt<SearchBody>, upstream: UpstreamOutcome)
    : (r: (Attempt<Response>, seq<Event>))
    // the only foreign call the handler makes is at most one upstream fetch
    ensures |r.1| <= 1 && forall e :: e in r.1 ==> e.FetchUpstream?
    // no token: 503 before reading the body
    ensures !Present(apiToken) ==> r.0.Done? && r.0.value.status == 503 && r.1 == []
    ensures Present(apiToken) && body.Threw? ==> r == (Threw(body.error), [])
    // an empty or missing query: 400, nothing forwarded
    ensures Present(apiToken) && body.Done? && !(body.value.query.Some? && Truthy(body.value.query.value)) ==>
      r.0.Done? && r.0.value.status == 400 && r.1 == []
    // otherwise exactly one upstream call, carrying the token and the query's first line
    ensures Present(apiToken) && body.Done? && body.value.query.Some? && Truthy(body.value.query.value) ==>
      && |r.1| == 1
      && r.1[0].payload.token == apiToken.value
      && r.1[0].payload.request == FirstLine(ToJsString(body.value.query.value))
      && r.1[0].payload.limit == body.value.limit.GetOr(Num(100))
      && r.1[0].payload.lang == body.value.lang.GetOr(Str("ru"))
      && (upstream.NotOk? ==> r.0 == Threw(Error("Error", "OSINT API returned status " + IntToString(upstream.status))))
      && (upstream.NetworkFailure? ==> r.0 == Threw(upstream.error))
      && (upstream.OkUnparsable? ==> r.0 == Threw(upstream.error))
      && (upstream.OkJson? ==>
            && r.0.Done?
            && (ErrorCode(upstream.data) == Some(Str("bad token")) ==> r.0.value.status == 401)
            && (ErrorCode(upstream.data).Some? && ErrorCode(upstream.data) != Some(Str("bad token")) ==>
                  r.0.value.status == 400)
            && (ErrorCode(upstream.data).None? ==> r.0.value == Json(200, upstream.data)))
  {
    if !Present(apiToken) then
      (Done(Json(503, map[
        "error" := Str("Service temporarily unavailable"),
        "message" := Str("OSINT API is not configured. Please contact administrator.")])), [])
    else if body.Threw? then (Threw(body.error), [])
    else
      var b := body.value;
      if !(b.query.Some? && Truthy(b.query.value)) then
        (Done(Json(400, map["error" := Str("Search query is required")])), [])
      else
        var payload := UpstreamRequest(apiToken.value, FirstLine(ToJsString(b.query.value)),
                                       b.limit.GetOr(Num(100)), b.lang.GetOr(Str("ru")), "json");
        var trace := [FetchUpstream(payload)];
        match upstream
        case NetworkFailure(e) => (Threw(e), trace)
        case NotOk(status) => (Threw(Error("Error", "OSINT API returned status " + IntToString(status))), trace)
        case OkUnparsable(e) => (Threw(e), trace)
        case OkJson(data) =>
          match ErrorCode(data)
          case Some(code) =>
            if code == Str("bad token") then
              (Done(Json(401, map[
                "error" := Str("Invalid API Token"),
                "message" := Str("The OSINT API token is invalid or expired.")])), trace)
            else
              (Done(Json(400, map["error" := Str("OSINT API Error: " + ToJsString(code))])), trace)
          case None => (Done(Json(200, data)), trace)
  }

  // -----------------------------------------------------------------------
  // POST /api/search
  // -----------------------------------------------------------------------

  /** The headers of an incoming request. Next's `Headers` folds names to
      lower case, so every key is lower-case. */
  type RequestHeaders = m: map<string, string> | forall k :: k in m ==> IsLower(k)
    witness map[]

  /** An incoming request: its headers, the origin of its URL, and its body
      as parsed. */
  datatype Request = Request(headers: RequestHeaders, urlOrigin: string, body: Attempt<SearchBody>)

  /** `request.headers.get(name)` for a lower-case `name`, with `||`'s
      treatment of "" as missing. `Headers.get` folds the name it is given,
      so a caller passes the folded name (see `SignatureSpellingsAgree`). */
  function Header(req: Request, name: string): Option<string> {
    if name in req.headers && req.headers[name] != "" then Some(req.headers[name]) else None
  }

  /** `Headers.get` folds the queried name as well, so the two spellings the
      route uses for the payment signature name the same header, the one
      `PaymentSignatureHeader` reads. */
  lemma SignatureSpellingsAgree(req: Request)
    ensures Lower("PAYMENT-SIGNATURE") == "payment-signature"
    ensures Header(req, Lower("PAYMENT-SIGNATURE")) == Header(req, Lower("payment-signature"))
    ensures PaymentSignatureHeader(req) == Header(req, Lower("PAYMENT-SIGNATURE"))
  {
    SignatureNameFolds();
  }

  lemma SignatureNameFolds()
    ensures Lower("PAYMENT-SIGNATURE") == "payment-signature"
    ensures Lower("payment-signature") == "payment-signature"
  {
  }

  /** The rate-limit key: the forwarded-for header, or "unknown". */
  function RateLimitKey(req: Request): (key: string)
    ensures Header(req, "x-forwarded-for").Some? ==> key == Header(req, "x-forwarded-for").value
    ensures Header(req, "x-forwarded-for").None? ==> key == "unknown"
    ensures key != ""
  {
    Header(req, "x-forwarded-for").GetOr("unknown")
  }

  /** A response the x402 library built (`processResult.response`): its
      headers are a plain object; its body may be a non-object (None). */
  datatype LibraryResponse = LibraryResponse(status: int, headers: HeaderObject, body: Option<Body>, isHtml: bool)

  /** `processHTTPRequest`'s three-way result. */
  datatype ProcessResult =
    | NoPaymentRequired
    | PaymentError(response: LibraryResponse)
    | PaymentVerified(paymentPayload: Value, paymentRequirements: Value)

  datatype SettleResponse = SettleResponse(success: bool, headers: HeaderObject)

  /** What the foreign collaborators answer for one request. The decoders
      return None where they would throw. */
  datatype Collaborators = Collaborators(
    parse: string -> Option<Url>,
    initFails: Option<Error>,
    process: ProcessResult,
    decodePaymentRequired: string -> Option<Value>,
    decodePaymentSignature: string -> Option<Value>,
    upstream: UpstreamOutcome,
    settle: Attempt<SettleResponse>)

  /** The process-wide state the route shares across requests. The
      module-level limiters of lib/rate-limiter.ts are shared with the
      admin route; this route checks `authenticatedUserLimiter`. */
  datatype State = State(limiters: Limiters, cell: ServerCell)

  const DecodeFailed := Str("failed_to_decode")

  /** Best-effort decoding: a decoder that throws leaves the sentinel. */
  function DecodeOrSentinel(decode: string -> Option<Value>, header: string): (v: Value)
    ensures decode(header).Some? ==> v == decode(header).value
    ensures decode(header).None? ==> v == DecodeFailed
  {
    match decode(header)
    case Some(x) => x
    case None => DecodeFailed
  }

  /** The library response's header, by either spelling of its name: the
      upper-case one first, an empty value counting as missing. */
  function PaymentRequiredHeader(h: HeaderObject): (r: Option<string>)
    ensures r.Some? ==> r.value != ""
    ensures Lookup(h, "PAYMENT-REQUIRED").Some? && Lookup(h, "PAYMENT-REQUIRED").value != "" ==>
      r == Lookup(h, "PAYMENT-REQUIRED")
    ensures !(Lookup(h, "PAYMENT-REQUIRED").Some? && Lookup(h, "PAYMENT-REQUIRED").value != "") ==>
      (r.Some? <==> Lookup(h, "payment-required").Some? && Lookup(h, "payment-required").value != "")
      && (r.Some? ==> r == Lookup(h, "payment-required"))
  {
    var upper := Lookup(h, "PAYMENT-REQUIRED");
    if upper.Some? && upper.value != "" then upper
    else
      var lower := Lookup(h, "payment-required");
      if lower.Some? && lower.value != "" then lower else None
  }

  /** The request's payment signature. The route asks for "payment-signature"
      and then "PAYMENT-SIGNATURE"; header lookup folds case, so both name
      the same header. */
  function PaymentSignatureHeader(req: Request): (r: Option<string>)
    ensures r.Some? <==> "payment-signature" in req.headers && req.headers["payment-signature"] != ""
    ensures r.Some? ==> r.value == req.headers["payment-signature"]
  {
    Header(req, "payment-signature")
  }

  /** The rate-limit headers every non-429 response carries. */
  function WithRateLimitHeaders(h: Headers, d: Decision): (r: Headers)
    ensures "x-ratelimit-limit" in r && r["x-ratelimit-limit"] == RateLimitHeaderValue
    ensures "x-ratelimit-remaining" in r && r["x-ratelimit-remaining"] == IntToString(d.remaining)
    ensures "x-ratelimit-reset" in r && r["x-ratelimit-reset"] == IntToString(d.resetTime)
    ensures forall k :: k in h && k !in {"x-ratelimit-limit", "x-ratelimit-remaining", "x-ratelimit-reset"} ==>
      k in r && r[k] == h[k]
  {
    // `headers.set("X-RateLimit-...")`, with the names folded to lower case
    h["x-ratelimit-limit" := RateLimitHeaderValue]
     ["x-ratelimit-remaining" := IntToString(d.remaining)]
     ["x-ratelimit-reset" := IntToString(d.resetTime)]
  }

  /** Adds the decoded PAYMENT-REQUIRED header of the library's response. */
  function EnrichRequired(body: Body, lib: LibraryResponse, c: Collaborators): (r: (Body, seq<Event>))
    ensures PaymentRequiredHeader(lib.headers).Some? ==>
      && r.0 == body["x402_payment_required" :=
           DecodeOrSentinel(c.decodePaymentRequired, PaymentRequiredHeader(lib.headers).value)]
      && r.1 == [DecodePaymentRequired]
    ensures PaymentRequiredHeader(lib.headers).None? ==> r == (body, [])
  {
    match PaymentRequiredHeader(lib.headers)
    case Some(h) => (body["x402_payment_required" := DecodeOrSentinel(c.decodePaymentRequired, h)], [DecodePaymentRequired])
    case None => (body, [])
  }

  /** Adds the decoded payment-signature header of the request. */
  function EnrichSignature(body: Body, req: Request, c: Collaborators): (r: (Body, seq<Event>))
    ensures PaymentSignatureHeader(req).Some? ==>
      && r.0 == body["x402_payment_signature" :=
           DecodeOrSentinel(c.decodePaymentSignature, PaymentSignatureHeader(req).value)]
      && r.1 == [DecodePaymentSignature]
    ensures PaymentSignatureHeader(req).None? ==> r == (body, [])
  {
    match PaymentSignatureHeader(req)
    case Some(h) => (body["x402_payment_signature" := DecodeOrSentinel(c.decodePaymentSignature, h)], [DecodePaymentSignature])
    case None => (body, [])
  }

  /** The names of the x402 context the payment-error body gains. */
  const RequiredKey := "x402_payment_required"
  const SignatureKey := "x402_payment_signature"

  /** The payment-error body: the library's body object (or `{}`), enriched
      with the decoded x402 headers, and the decoder calls made. */
  function PaymentErrorBody(lib: LibraryResponse, req: Request, c: Collaborators): (r: (Body, seq<Event>))
    ensures var base := lib.body.GetOr(map[]);
      && r.0.Keys == base.Keys
           + (if PaymentRequiredHeader(lib.headers).Some? then {RequiredKey} else {})
           + (if PaymentSignatureHeader(req).Some? then {SignatureKey} else {})
      // every other member of the library's body passes through
      && (forall k :: k in base && k != RequiredKey && k != SignatureKey ==> r.0[k] == base[k])
    ensures PaymentRequiredHeader(lib.headers).Some? ==>
      r.0[RequiredKey] == DecodeOrSentinel(c.decodePaymentRequired, PaymentRequiredHeader(lib.headers).value)
    ensures PaymentSignatureHeader(req).Some? ==>
      r.0[SignatureKey] == DecodeOrSentinel(c.decodePaymentSignature, PaymentSignatureHeader(req).value)
    // one decoder call per header present, the required one first
    ensures r.1 == (if PaymentRequiredHeader(lib.headers).Some? then [DecodePaymentRequired] else [])
                 + (if PaymentSignatureHeader(req).Some? then [DecodePaymentSignature] else [])
    ensures forall e :: e in r.1 ==> e == DecodePaymentRequired || e == DecodePaymentSignature
    ensures RunHandler !in r.1 && Settle !in r.1 && ProcessRequest !in r.1
  {
    var (body1, t1) := EnrichRequired(lib.body.GetOr(map[]), lib, c);
    var (body2, t2) := EnrichSignature(body1, req, c);
    (body2, t1 + t2)
  }

  /** The content type the library asked for. */
  function ContentType(lib: LibraryResponse): string {
    if lib.isHtml then "text/html" else "application/json"
  }

  /** The headers of the payment-error response: the library's, then the
      content type it asked for, then the rate-limit headers. */
  function PaymentErrorHeaders(lib: LibraryResponse, d: Decision): (r: Headers)
    ensures r.Keys == Names(lib.headers)
      + {"content-type", "x-ratelimit-limit", "x-ratelimit-remaining", "x-ratelimit-reset"}
    ensures r["content-type"] == ContentType(lib)
    ensures r["x-ratelimit-limit"] == RateLimitHeaderValue
    ensures r["x-ratelimit-remaining"] == IntToString(d.remaining)
    ensures r["x-ratelimit-reset"] == IntToString(d.resetTime)
    // a library header the route does not set passes through, the last
    // entry for its name winning
    ensures forall i :: 0 <= i < |lib.headers| && LastOfName(lib.headers, i) && !RouteSets(Lower(lib.headers[i].0)) ==>
      r[Lower(lib.headers[i].0)] == lib.headers[i].1
  {
    var spread := SetAll(map[], lib.headers);
    SetAllSpec(map[], lib.headers);
    var headers := spread["content-type" := ContentType(lib)];
    WithRateLimitHeaders(headers, d)
  }

  /** The header names the route writes over the library's. */
  predicate RouteSets(name: string) {
    name in {"content-type", "x-ratelimit-limit", "x-ratelimit-remaining", "x-ratelimit-reset"}
  }

  /** The payment-error branch: the library's status, its headers with the
      content type and rate-limit headers, and its body enriched with the
      decoded x402 headers, or the sentinel where decoding fails. */
  function PaymentErrorResponse(lib: LibraryResponse, req: Request, d: Decision, c: Collaborators)
    : (r: (Response, seq<Event>))
    ensures r.0.status == lib.status
    ensures r.0.headers == PaymentErrorHeaders(lib, d)
    ensures (r.0.body, r.1) == PaymentErrorBody(lib, req, c)
    ensures RunHandler !in r.1 && Settle !in r.1 && ProcessRequest !in r.1
  {
    var enriched := PaymentErrorBody(lib, req, c);
    (Response(lib.status, PaymentErrorHeaders(lib, d), enriched.0), enriched.1)
  }

  /** The catch-all: any thrown error becomes a 500 carrying its message. */
  function InternalError(e: Error): (r: Response)
    ensures r.status == 500
    ensures "error" in r.body && r.body["error"] == Str("Internal server error")
    ensures "message" in r.body && r.body["message"] == Str(if e.message != "" then e.message else "Internal server error")
  {
    Json(500, map[
      "error" := Str("Internal server error"),
      "message" := Str(if e.message != "" then e.message else "Internal server error"),
      "name" := Str(e.name),
      "hint" := Str("Failed to process search request")])
  }

  /** After the protected handler answered for a verified payment: the
      settlement outcome decides the response. A thrown settlement becomes a
      500; a failed one leaves the handler's response as it was; a
      successful one adds its headers to it. */
  function Settled(resp: Response, settle: Attempt<SettleResponse>, d: Decision): (r: Response)
    ensures settle.Threw? ==> r == InternalError(settle.error)
    ensures settle.Done? ==> r.status == resp.status && r.body == resp.body
    ensures settle.Done? && !settle.value.success ==> r.headers == WithRateLimitHeaders(resp.headers, d)
    ensures settle.Done? && settle.value.success ==>
      r.headers == WithRateLimitHeaders(SetAll(resp.headers, settle.value.headers), d)
    ensures settle.Done? && settle.value.success ==>
      forall i :: 0 <= i < |settle.value.headers| ==> Lower(settle.value.headers[i].0) in r.headers
  {
    match settle
    case Threw(e) => InternalError(e)
    case Done(s) =>
      if s.success then
        SetAllSpec(resp.headers, s.headers);
        resp.(headers := WithRateLimitHeaders(SetAll(resp.headers, s.headers), d))
      else
        resp.(headers := WithRateLimitHeaders(resp.headers, d))
  }

  /** The calls made when the handler runs: the handler, its own calls, and
      settlement if it is due. */
  function HandlerTrace(handlerTrace: seq<Event>, settles: bool): (t: seq<Event>)
    requires forall e :: e in handlerTrace ==> e.FetchUpstream?
    ensures |t| >= 1 && t[0] == RunHandler && Count(t, RunHandler) == 1
    ensures Count(t, Settle) == (if settles then 1 else 0)
    ensures settles ==> t[|t| - 1] == Settle
    ensures ProcessRequest !in t
  {
    CountAppend([RunHandler], handlerTrace, RunHandler);
    CountAppend([RunHandler], handlerTrace, Settle);
    assert [RunHandler][..0] == [];
    var ran := [RunHandler] + handlerTrace;
    if settles then
      CountAppend(ran, [Settle], Settle);
      CountAppend(ran, [Settle], RunHandler);
      assert [Settle][..0] == [];
      ran + [Settle]
    else ran
  }

  /** After the library has classified the request: the payment-error
      branch, or the protected handler (whose outcome and calls are
      `handler`) followed, for a verified payment, by settlement. */
  function Dispatch(req: Request, d: Decision, c: Collaborators, handler: (Attempt<Response>, seq<Event>))
    : (r: (Response, seq<Event>))
    requires forall e :: e in handler.1 ==> e.FetchUpstream?
    // a payment error never reaches the handler or settlement
    ensures c.process.PaymentError? ==>
      && r.0.status == c.process.response.status
      && RunHandler !in r.1 && Settle !in r.1
    // otherwise the handler runs exactly once, first
    ensures !c.process.PaymentError? ==> |r.1| >= 1 && r.1[0] == RunHandler && Count(r.1, RunHandler) == 1
    // settlement: at most once, only for a verified payment, only after
    // the handler, and only when the handler did not throw
    ensures Count(r.1, Settle) <= 1
    ensures Settle in r.1 <==> c.process.PaymentVerified? && handler.0.Done?
    ensures Settle in r.1 ==> r.1[|r.1| - 1] == Settle
    ensures ProcessRequest !in r.1
    // a handler that throws becomes a 500
    ensures !c.process.PaymentError? && handler.0.Threw? ==> r.0 == InternalError(handler.0.error)
    // the handler's response passes through, decorated by settlement if due
    ensures c.process.NoPaymentRequired? && handler.0.Done? ==>
      r.0 == handler.0.value.(headers := WithRateLimitHeaders(handler.0.value.headers, d))
    ensures c.process.PaymentVerified? && handler.0.Done? ==> r.0 == Settled(handler.0.value, c.settle, d)
  {
    match c.process
    case PaymentError(lib) =>
      PaymentErrorResponse(lib, req, d, c)
    case NoPaymentRequired => RunProtected(handler, c.settle, d, false)
    case PaymentVerified(_, _) => RunProtected(handler, c.settle, d, true)
  }

  /** The protected handler's outcome, settled when the payment was verified
      and the handler answered. */
  function RunProtected(handler: (Attempt<Response>, seq<Event>), settle: Attempt<SettleResponse>,
                        d: Decision, verified: bool): (r: (Response, seq<Event>))
    requires forall e :: e in handler.1 ==> e.FetchUpstream?
    ensures |r.1| >= 1 && r.1[0] == RunHandler && Count(r.1, RunHandler) == 1
    ensures Count(r.1, Settle) == (if verified && handler.0.Done? then 1 else 0)
    ensures verified && handler.0.Done? ==> r.1[|r.1| - 1] == Settle
    ensures ProcessRequest !in r.1
    ensures handler.0.Threw? ==> r.0 == InternalError(handler.0.error)
    ensures !verified && handler.0.Done? ==>
      r.0 == handler.0.value.(headers := WithRateLimitHeaders(handler.0.value.headers, d))
    ensures verified && handler.0.Done? ==> r.0 == Settled(handler.0.value, settle, d)
  {
    match handler.0
    case Threw(e) => (InternalError(e), HandlerTrace(handler.1, false))
    case Done(resp) =>
      if verified then (Settled(resp, settle, d), HandlerTrace(handler.1, true))
      else (resp.(headers := WithRateLimitHeaders(resp.headers, d)), HandlerTrace(handler.1, false))
  }

  /** The origin the resource server is built for: the `origin` header, or
      the request URL's own origin. */
  function Origin(req: Request): string {
    Header(req, "origin").GetOr(req.urlOrigin)
  }

  /** What the protected handler does for this request. */
  function Handler(env: Env, req: Request, c: Collaborators): (r: (Attempt<Response>, seq<Event>))
    ensures forall e :: e in r.1 ==> e.FetchUpstream?
  {
    RunLeakOsint(env.apiToken, req.body, c.upstream)
  }

  /** The route once the rate limiter has let the request through: the
      resource server, the library's classification, and dispatch. */
  function Serve(cell: ServerCell, env: Env, req: Request, d: Decision, c: Collaborators)
    : (r: (ServerCell, Response, seq<Event>))
    ensures var server := GetHttpServer(cell, Origin(req), env, c.parse, c.initFails);
      && r.0 == server.0
      // a server that cannot be had is a 500, and the library is never asked
      && (server.1.Threw? ==> r.1 == InternalError(server.1.error) && r.2 == server.2)
      // otherwise the library is asked exactly once, then dispatch follows
      && (server.1.Done? ==>
            && Count(r.2, ProcessRequest) == 1
            && |r.2| > |server.2| && r.2[..|server.2|] == server.2 && r.2[|server.2|] == ProcessRequest
            && var dispatched := Dispatch(req, d, c, Handler(env, req, c));
               r.1 == dispatched.0 && r.2 == server.2 + [ProcessRequest] + dispatched.1)
    ensures Count(r.2, RunHandler) <= 1 && Count(r.2, Settle) <= 1
    ensures RunHandler in r.2 ==> !c.process.PaymentError?
    ensures Settle in r.2 ==>
      c.process.PaymentVerified? && r.2[|r.2| - 1] == Settle && RunHandler in r.2[..|r.2| - 1]
  {
    AfterServer(GetHttpServer(cell, Origin(req), env, c.parse, c.initFails), env, req, d, c)
  }

  /** Given the outcome of obtaining the resource server: a 500 when it
      threw, otherwise the library call and dispatch. */
  function AfterServer(server: (ServerCell, Attempt<Server>, seq<Event>), env: Env, req: Request,
                       d: Decision, c: Collaborators): (r: (ServerCell, Response, seq<Event>))
    requires forall e :: e in server.2 ==> e.InitServer?
    ensures r.0 == server.0
    ensures server.1.Threw? ==> r.1 == InternalError(server.1.error) && r.2 == server.2
    ensures server.1.Done? ==>
      && Count(r.2, ProcessRequest) == 1
      && |r.2| > |server.2| && r.2[..|server.2|] == server.2 && r.2[|server.2|] == ProcessRequest
    ensures server.1.Done? ==>
      var dispatched := Dispatch(req, d, c, Handler(env, req, c));
      r.1 == dispatched.0 && r.2 == server.2 + [ProcessRequest] + dispatched.1
    ensures Count(r.2, RunHandler) <= 1 && Count(r.2, Settle) <= 1
    ensures RunHandler in r.2 ==> !c.process.PaymentError?
    ensures Settle in r.2 ==>
      c.process.PaymentVerified? && r.2[|r.2| - 1] == Settle && RunHandler in r.2[..|r.2| - 1]
  {
    if server.1.Threw? then
      NoHandlerBeforeServer(server.2);
      (server.0, InternalError(server.1.error), server.2)
    else
      var dispatched := Dispatch(req, d, c, Handler(env, req, c));
      ServeTrace(server.2, dispatched.1);
      (server.0, dispatched.0, server.2 + [ProcessRequest] + dispatched.1)
  }

  /** Server set-up alone neither runs the handler nor settles. */
  lemma NoHandlerBeforeServer(initTrace: seq<Event>)
    requires forall e :: e in initTrace ==> e.InitServer?
    ensures Count(initTrace, RunHandler) == 0 && Count(initTrace, Settle) == 0
    ensures RunHandler !in initTrace && Settle !in initTrace
  {
    assert RunHandler !in initTrace && Settle !in initTrace;
  }

  /** Putting server set-up and the library call in front of a dispatch
      trace keeps the handler and settlement in order, and the library call
      single. */
  lemma ServeTrace(initTrace: seq<Event>, trace: seq<Event>)
    requires forall e :: e in initTrace ==> e.InitServer?
    requires ProcessRequest !in trace
    requires Count(trace, RunHandler) <= 1 && Count(trace, Settle) <= 1
    requires Settle in trace ==> trace[|trace| - 1] == Settle && trace[0] == RunHandler
    ensures var all := initTrace + [ProcessRequest] + trace;
      && Count(all, ProcessRequest) == 1
      && |all| > |initTrace| && all[..|initTrace|] == initTrace && all[|initTrace|] == ProcessRequest
      && Count(all, RunHandler) == Count(trace, RunHandler)
      && Count(all, Settle) == Count(trace, Settle)
      && (Settle in all ==> all[|all| - 1] == Settle && RunHandler in all[..|all| - 1])
  {
    var pre := initTrace + [ProcessRequest];
    var all := pre + trace;
    assert RunHandler !in initTrace && Settle !in initTrace && ProcessRequest !in initTrace;
    assert [ProcessRequest][..0] == [];
    CountAppend(initTrace, [ProcessRequest], RunHandler);
    CountAppend(initTrace, [ProcessRequest], Settle);
    CountAppend(initTrace, [ProcessRequest], ProcessRequest);
    CountAppend(pre, trace, RunHandler);
    CountAppend(pre, trace, Settle);
    CountAppend(pre, trace, ProcessRequest);
    assert all[..|initTrace|] == initTrace;
    if Settle in all {
      assert Settle in trace;
      assert all[|all| - 1] == trace[|trace| - 1];
      assert trace[0] != Settle;
      assert all[|pre|] == RunHandler;
    }
  }

  /** `POST /api/search` at time `now`. */
  function Post(s: State, env: Env, req: Request, now: int, c: Collaborators)
    : (r: (State, Response, seq<Event>))
    ensures var (limiter, d) := CheckLimit(s.limiters.authenticated, RateLimitKey(req), now);
      && r.0.limiters == s.limiters.(authenticated := limiter)
      // a denied check answers 429 before anything else is called
      && (!d.allowed ==>
            && r.1.status == 429 && r.2 == [] && r.0.cell == s.cell
            && "resetTime" in r.1.body && r.1.body["resetTime"] == Num(d.resetTime)
            && r.1.headers == WithRateLimitHeaders(map["content-type" := "application/json"], d))
      // an allowed request goes on to the server, carrying the decision
      && (d.allowed ==> (r.0.cell, r.1, r.2) == Serve(s.cell, env, req, d, c))
    // the handler runs at most once and never for a payment error; settlement
    // is attempted at most once, only for a verified payment, and last,
    // after the handler
    ensures Count(r.2, RunHandler) <= 1 && Count(r.2, Settle) <= 1
    ensures RunHandler in r.2 ==> !c.process.PaymentError?
    ensures Settle in r.2 ==>
      c.process.PaymentVerified? && r.2[|r.2| - 1] == Settle && RunHandler in r.2[..|r.2| - 1]
  {
    var (limiter, d) := CheckLimit(s.limiters.authenticated, RateLimitKey(req), now);
    if !d.allowed then
      var body := map[
        "error" := Str("Rate limit exceeded"),
        "resetTime" := Num(d.resetTime)];
      var headers := WithRateLimitHeaders(map["content-type" := "application/json"], d);
      (s.(limiters := s.limiters.(authenticated := limiter)), Response(429, headers, body), [])
    else
      var (cell, resp, trace) := Serve(s.cell, env, req, d, c);
      (State(s.limiters.(authenticated := limiter), cell), resp, trace)
  }

  // -----------------------------------------------------------------------
  // The request end to end, once the limiter allowed it and a server is had
  // -----------------------------------------------------------------------

  /** The limiter lets the request through and a resource server is had. */
  predicate Admitted(s: State, env: Env, req: Request, now: int, c: Collaborators) {
    && CheckLimit(s.limiters.authenticated, RateLimitKey(req), now).1.allowed
    && GetHttpServer(s.cell, Origin(req), env, c.parse, c.initFails).1.Done?
  }

  /** A payment error answers with the library's status, headers and
      enriched body, and neither runs the handler nor settles. */
  lemma PostPaymentError(s: State, env: Env, req: Request, now: int, c: Collaborators)
    requires Admitted(s, env, req, now, c) && c.process.PaymentError?
    ensures var r := Post(s, env, req, now, c);
      var d := CheckLimit(s.limiters.authenticated, RateLimitKey(req), now).1;
      && r.1 == PaymentErrorResponse(c.process.response, req, d, c).0
      && r.1.status == c.process.response.status
      && RunHandler !in r.2 && Settle !in r.2
  {
  }

  /** Without a payment requirement the handler runs exactly once and its
      answer is the route's, status and body alike: 503 without a token, 400
      for an empty query or an upstream error code, 401 for "bad token", and
      200 with the upstream data. Nothing is settled. */
  lemma PostUnpaidAnswer(s: State, env: Env, req: Request, now: int, c: Collaborators)
    requires Admitted(s, env, req, now, c) && c.process.NoPaymentRequired?
    requires Handler(env, req, c).0.Done?
    ensures var r := Post(s, env, req, now, c);
      var answer := Handler(env, req, c).0.value;
      && r.1.status == answer.status && r.1.body == answer.body
      && Count(r.2, RunHandler) == 1 && Settle !in r.2
  {
  }

  /** An upstream "bad token" reaches the caller as a 401. */
  lemma PostBadToken(s: State, env: Env, req: Request, now: int, c: Collaborators)
    requires Admitted(s, env, req, now, c) && c.process.NoPaymentRequired?
    requires Present(env.apiToken) && req.body.Done?
    requires req.body.value.query.Some? && Truthy(req.body.value.query.value)
    requires c.upstream.OkJson? && ErrorCode(c.upstream.data) == Some(Str("bad token"))
    ensures Post(s, env, req, now, c).1.status == 401
  {
    PostUnpaidAnswer(s, env, req, now, c);
  }

  /** A handler that throws (an unreadable body, an upstream failure or a
      non-ok upstream status) becomes a 500, and nothing is settled. */
  lemma PostHandlerThrew(s: State, env: Env, req: Request, now: int, c: Collaborators)
    requires Admitted(s, env, req, now, c) && !c.process.PaymentError?
    requires Handler(env, req, c).0.Threw?
    ensures var r := Post(s, env, req, now, c);
      && r.1 == InternalError(Handler(env, req, c).0.error) && r.1.status == 500
      && Count(r.2, RunHandler) == 1 && Settle !in r.2
  {
  }

  /** A non-ok upstream status surfaces as a 500 naming that status. */
  lemma PostUpstreamNotOk(s: State, env: Env, req: Request, now: int, c: Collaborators)
    requires Admitted(s, env, req, now, c) && !c.process.PaymentError?
    requires Present(env.apiToken) && req.body.Done?
    requires req.body.value.query.Some? && Truthy(req.body.value.query.value)
    requires c.upstream.NotOk?
    ensures var r := Post(s, env, req, now, c);
      && r.1.status == 500
      && r.1.body["message"] == Str("OSINT API returned status " + IntToString(c.upstream.status))
  {
    PostHandlerThrew(s, env, req, now, c);
  }

  /** A verified payment whose handler answered is settled exactly once, as
      the last call, and the settlement decides the response. */
  lemma PostPaidSettles(s: State, env: Env, req: Request, now: int, c: Collaborators)
    requires Admitted(s, env, req, now, c) && c.process.PaymentVerified?
    requires Handler(env, req, c).0.Done?
    ensures var r := Post(s, env, req, now, c);
      var d := CheckLimit(s.limiters.authenticated, RateLimitKey(req), now).1;
      && r.1 == Settled(Handler(env, req, c).0.value, c.settle, d)
      && Count(r.2, RunHandler) == 1 && Count(r.2, Settle) == 1 && r.2[|r.2| - 1] == Settle
  {
  }
}
