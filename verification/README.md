# OSINT Mini: rate limiting, paid search and the paying client, in Dafny

OSINT Mini is a Next.js service. It sells one OSINT search per x402 payment: an
HTTP `402 Payment Required` answer, a signed USDC transfer on Base, and a retry.
This project models the core of the service as pure functions, and proves what
the code promises about them:

- **The rate limiter** (`lib/rate-limiter.ts`): fixed windows per
  case-folded key, cleanup of expired windows, statistics, the two
  limiter instances, and the session-token helpers.
- **The paid search route** (`app/api/search/route.ts`):
  - the rate-limit gate;
  - the memoised x402 resource server, which is reset when initialisation fails;
  - resolution of the facilitator URL;
  - the payment-error response, enriched with decoded headers;
  - the protected `runLeakOsint` handler and its status mapping;
  - settlement, only after a verified payment and a handler that returned.
- **The admin route** (`app/api/admin/rate-limits/route.ts`): its ordered
  authorisation checks and the statistics it reports.
- **The client helpers of the search page** (`app/page.tsx`):
  - the `EIP712Domain` type and the `chainId` normalisation of the signing payload;
  - the `x402Fetch` wrapper, which answers one 402 with one paid retry;
  - the guards and chain check of `makeSearch`;
  - the `balanceOf` call data and the 6-decimal USDC display.

Time is a parameter (`now`). Code the model cannot see is also passed in:

- the x402 library;
- the upstream OSINT API;
- the wallet;
- the URL parser;
- `fetch`.

What that code returns becomes an argument. Every call the modelled code makes
to it is recorded in a trace of events. The ordering properties are stated over
that trace: "the handler runs at most once", "settlement comes last", "at most
two fetches".

Files:

| file | module | content |
|---|---|---|
| `wrappers.dfy` | `Wrappers` | `Option` |
| `strings.dfy` | `Strings` | ASCII case folding, `indexOf`, `split(sep)[0]`, `padStart`, `trim`, decimal and hex numerals |
| `http.dfy` | `Http` | JSON values, thrown errors, responses, case-folding header maps |
| `rate_limiter.dfy` | `RateLimiter` | `lib/rate-limiter.ts` |
| `search_route.dfy` | `SearchRoute` | `app/api/search/route.ts` |
| `admin_route.dfy` | `AdminRoute` | `app/api/admin/rate-limits/route.ts` |
| `payment_client.dfy` | `PaymentClient` | typed data, `x402Fetch` and `makeSearch` of `app/page.tsx` |
| `usdc_balance.dfy` | `UsdcBalance` | balance call data and USDC formatting of `app/page.tsx` |

Three behaviours of the code are worth noting:

- **A throwing `processSettlement` becomes a 500.** A `settle` call that throws
  is caught by the route's outer `catch` (app/api/search/route.ts:239, 251-268).
  The model therefore answers 500 and drops the handler's response. Only a
  settlement that *returns* `success: false` is absorbed and leaves the
  handler's response intact.
- **`x402Fetch` asks for the signature before it checks `init`.**
  `createPaymentPayload` runs before the `init` and `__is402Retry` checks
  (app/page.tsx:219-224). So the wallet is asked to sign even when the wrapper
  then throws "Missing fetch request configuration" or "Payment already
  attempted". `PaymentClient.X402Fetch` records a `CreatePayment` event before
  either error.
- **The admin statistics report hard-coded limits.** The statistics body
  (app/api/admin/rate-limits/route.ts:35-36, 41-42) reports limits of 200 and
  50 per hour. The limiter instances the routes actually use
  (lib/rate-limiter.ts:88-89) allow 30 and 5 per day. The model reports only
  the counts and asserts nothing about those literals.

## Model

| member | source | states |
|---|---|---|
| RateLimiter.NewLimiter | lib/rate-limiter.ts:13-20 | A new limiter has the given limits and no windows, and satisfies the limiter invariant. |
| RateLimiter.CheckLimit | lib/rate-limiter.ts:31-65 | The key is lower-cased. A missing window, or one strictly past its reset time, restarts at `now + windowMs` with count 0; at `now == resetTime` the old window still applies. A full window denies, with `remaining = 0` and the old reset time, and leaves the count as it was. Otherwise the count rises by exactly one and `remaining = max - count`. No other key's entry changes. Every entry keeps `count <= maxRequests`. |
| RateLimiter.GetRemaining | lib/rate-limiter.ts:67-76 | Lies between 0 and `maxRequests`. It is `maxRequests` for a missing or expired window, else `maxRequests - count`. It is a pure read: it returns no new limiter. |
| RateLimiter.Cleanup | lib/rate-limiter.ts:22-29 | Removes exactly the entries with `now > resetTime`, leaves every other entry unchanged, and keeps the invariant. |
| RateLimiter.GetStats | lib/rate-limiter.ts:78-84 | Sweeps expired windows first. Then reports the number of live windows, which equals the size of the swept map, as both `totalWallets` and `activeEntries`. |
| RateLimiter.CaseInsensitive | lib/rate-limiter.ts:31-76 | Two keys that differ only in letter case get the same decision, the same new state and the same remaining count. |
| RateLimiter.RemainingPredictsCheck | lib/rate-limiter.ts:38-76 | A check is allowed exactly when `getRemainingRequests` reports more than zero. An allowed check then reports one less. |
| RateLimiter.CleanupUnobservable | lib/rate-limiter.ts:22-45 | A sweep at any earlier time changes no later decision and no later remaining count. |
| RateLimiter.CleanupIdempotent | lib/rate-limiter.ts:22-29 | Sweeping twice at the same time is sweeping once. |
| RateLimiter.WindowRun | lib/rate-limiter.ts:48-63 | In a window already holding `c` requests, the i-th further check is allowed iff `c + i < max`. It then reports `max - c - i - 1` remaining, and every check reports the window's reset time. |
| RateLimiter.StartsWindow | lib/rate-limiter.ts:38-63 | A check with no window in force opens one at `now + windowMs`, holding one request when the limit is positive. |
| RateLimiter.WindowCorrect | lib/rate-limiter.ts:38-63 | N checks inside one fresh window report N-1 … 0 remaining. The (max+1)-th check and every one after it are denied. |
| RateLimiter.ExpiryAllowsAgain | lib/rate-limiter.ts:38-63 | Once a window's reset time has passed, the next check is allowed again with `max - 1` remaining and a new reset time. |
| RateLimiter.CheckTier | lib/rate-limiter.ts:88-89 | The two limiter instances are independent: checking one leaves the other unchanged. |
| RateLimiter.ExtractWalletFromToken | lib/rate-limiter.ts:92-108 | No `_user_` marker gives null. Otherwise the result is the text between the first marker and the next `_` (or the end), and it is present exactly when that text starts with `0x`. |
| RateLimiter.IsValidSessionToken | lib/rate-limiter.ts:111-113 | True exactly when the secret is a prefix of the token. |
| RateLimiter.SessionTokenRoundTrip | lib/rate-limiter.ts:92-113 | A token built as secret, `_user_`, wallet and an optional `_…` tail is valid for the secret, and yields the wallet back. |
| SearchRoute.PayTo | app/api/search/route.ts:32-35 | The payee is `EVM_ADDRESS`, else `EVM_ADRESS`, else the built-in address; an empty variable counts as unset. |
| SearchRoute.SearchRouteConfig | app/api/search/route.ts:63-78 | The route accepts the `exact` scheme on the configured network and payee. The price defaults to `$0.15`. The unpaid 402 body names exactly the configured price. |
| SearchRoute.ConfiguredFacilitator | app/api/search/route.ts:37-43 | An unset URL gives `origin + "/api/x402"`. A relative URL is appended to the origin. An absolute one is kept. |
| SearchRoute.ResolveFacilitatorUrl | app/api/search/route.ts:45-58 | A configured URL on localhost, at a port other than a local origin's, is replaced by the origin's own facilitator. Otherwise, including when the URL does not parse, the configured one is kept. |
| SearchRoute.FacilitatorNotOtherLocalPort | app/api/search/route.ts:45-58 | The resolved facilitator never points at another local port than the origin's. |
| SearchRoute.GetHttpServer | app/api/search/route.ts:24-93 | A settled server is reused with no call. Otherwise one server is built and initialised exactly once. A successful initialisation is memoised. A failed one leaves the memo empty and rethrows. An origin that is not a URL throws before anything is built. |
| SearchRoute.ReadyServerReused | app/api/search/route.ts:26 | Once a server is settled, every later call returns it and initialises nothing. |
| SearchRoute.InitialisedUntilFirstSuccess | app/api/search/route.ts:81-90 | Over a run of calls, initialisation is attempted once per failing call until the first success. After that it is never attempted again. |
| SearchRoute.FirstLine | app/api/search/route.ts:114 | The forwarded query is the prefix of the query up to its first newline. |
| SearchRoute.RunLeakOsint | app/api/search/route.ts:95-156 | No API token gives 503 before the body is read. An empty query gives 400. Otherwise exactly one upstream call is made, carrying the token and the query's first line, with `limit` defaulting to 100 and `lang` to `ru`. A non-ok upstream reply throws "OSINT API returned status N". `Error code` "bad token" gives 401, and any other error code gives 400. Otherwise the reply is 200 with the upstream data. |
| SearchRoute.RateLimitKey | app/api/search/route.ts:162 | The key is the `x-forwarded-for` header, or `unknown` when it is missing or empty. |
| SearchRoute.SignatureSpellingsAgree | app/api/search/route.ts:212 | Header lookup folds the queried name, so both spellings at this line, `payment-signature` and `PAYMENT-SIGNATURE`, name the same header, the one the route reads the signature from. |
| SearchRoute.DecodeOrSentinel | app/api/search/route.ts:206-218 | A header that fails to decode is recorded as `failed_to_decode` instead of throwing. |
| SearchRoute.PaymentRequiredHeader | app/api/search/route.ts:204 | The upper-case `PAYMENT-REQUIRED` entry is used when it is non-empty, else a non-empty `payment-required` entry, else none. |
| SearchRoute.PaymentSignatureHeader | app/api/search/route.ts:212 | The payment signature is present exactly when the request carries a non-empty `payment-signature` header, under any spelling, and is its value. |
| SearchRoute.WithRateLimitHeaders | app/api/search/route.ts:228-249 | Sets `X-RateLimit-Limit: 30`, the remaining count and the reset time, and leaves every other header as it was. |
| SearchRoute.EnrichRequired | app/api/search/route.ts:204-211 | With a `PAYMENT-REQUIRED` (or `payment-required`) header, the body gains its decoding or the sentinel, with one decode call. Without one, nothing changes. |
| SearchRoute.EnrichSignature | app/api/search/route.ts:212-219 | With a payment-signature header, under any letter case, the body gains its decoding or the sentinel. Without one, nothing changes. |
| SearchRoute.PaymentErrorBody | app/api/search/route.ts:201-219 | The body is the library's body object (or `{}`) with exactly the x402 keys added for the headers present. Each added key holds the decoding or the sentinel, and every other member passes through unchanged. One decoder call is made per header present, the required one first. |
| SearchRoute.PaymentErrorHeaders | app/api/search/route.ts:221-230 | The headers are the library's names plus the content type and the three rate-limit headers. The content type is HTML or JSON as the library asked, and the rate-limit headers carry the limit, the remaining count and the reset time. Every library header the route does not set passes through, the last entry for its name winning. |
| SearchRoute.PaymentErrorResponse | app/api/search/route.ts:200-232 | Keeps the library's status. Its headers are those of `PaymentErrorHeaders`, and its body and calls are those of `PaymentErrorBody`. It never runs the handler, settles, or asks the library again. |
| SearchRoute.InternalError | app/api/search/route.ts:251-268 | A caught error becomes a 500 with `error: "Internal server error"` and the error's message, or that text when the message is empty. |
| SearchRoute.Settled | app/api/search/route.ts:238-250 | A settlement that throws becomes a 500. A settlement that fails keeps the handler's response, adding only the rate-limit headers. A successful one first sets the settlement headers, last entry winning, and then the rate-limit headers, so every settlement header name is present. |
| SearchRoute.HandlerTrace | app/api/search/route.ts:235-245 | The handler runs once, first, and settlement, when due, is the last call. |
| SearchRoute.RunProtected | app/api/search/route.ts:235-250 | The handler runs once, first. Settlement is the last call, exactly when the payment was verified and the handler returned. A thrown handler becomes a 500. An unpaid answer gains only the rate-limit headers, and a paid one is settled. |
| SearchRoute.Dispatch | app/api/search/route.ts:200-268 | A payment error never reaches the handler or settlement. Otherwise the handler runs exactly once. Settlement happens at most once: exactly when the payment was verified and the handler returned, and then last. A handler that throws becomes a 500. |
| SearchRoute.Serve | app/api/search/route.ts:184-250 | A server that cannot be had gives a 500 without consulting the library. Otherwise `processHTTPRequest` is asked exactly once, right after set-up, and the response and remaining calls are those of `Dispatch` on the handler's outcome. The handler and settlement keep their order. |
| SearchRoute.AfterServer | app/api/search/route.ts:185-250 | A server that threw gives a 500, and its set-up calls are the whole trace. Otherwise the library is asked once, right after set-up, and the response and the rest of the trace are exactly those of `Dispatch`, with the handler and settlement in order. |
| SearchRoute.Post | app/api/search/route.ts:158-270 | A denied check of the shared authenticated-user limiter answers 429 with the reset time and the rate-limit headers. It makes no other call and leaves the server memo and the other limiter untouched. An allowed request goes on to `Serve`. Over the whole request, the handler runs at most once and never for a payment error, and settlement happens at most once, last, and only after the handler. |
| SearchRoute.PostPaymentError | app/api/search/route.ts:200-232 | End to end, a payment error answers with the library's status and the enriched payment-error response, and neither runs the handler nor settles. |
| SearchRoute.PostUnpaidAnswer | app/api/search/route.ts:235-250 | End to end, without a payment requirement the handler runs exactly once, its status and body are the route's answer, and nothing is settled. |
| SearchRoute.PostBadToken | app/api/search/route.ts:139-150 | End to end, an upstream `Error code` of "bad token" reaches the caller as a 401. |
| SearchRoute.PostHandlerThrew | app/api/search/route.ts:235-268 | End to end, a handler that throws becomes the 500 of the outer catch, and nothing is settled. |
| SearchRoute.PostUpstreamNotOk | app/api/search/route.ts:132-135 | End to end, a non-ok upstream status becomes a 500 whose message names that status. |
| SearchRoute.PostPaidSettles | app/api/search/route.ts:235-250 | End to end, a verified payment whose handler answered is settled exactly once, as the last call, and the settlement decides the response. |
| AdminRoute.Authorize | app/api/admin/rate-limits/route.ts:8-26 | The checks apply in the route's order, and the first failing one decides: no `Bearer ` header gives 401, an unset secret 500, an empty or foreign token 401, and a token naming neither `admin` nor `jaguar` 403. |
| AdminRoute.AuthorizedIffAllChecksPass | app/api/admin/rate-limits/route.ts:8-26 | Access is granted exactly when all four checks pass, and then to the token after `Bearer `. |
| AdminRoute.Get | app/api/admin/rate-limits/route.ts:6-52 | A refused call changes no limiter. An authorised call sweeps both limiters exactly as `getStats` does, keeping their configurations and every surviving window as they were, and reports, for each, the number of live windows. |
| PaymentClient.PresentFields | app/page.tsx:160-168 | Keeps exactly the listed members whose domain value is neither null nor undefined. |
| PaymentClient.PresentFieldsRanked | app/page.tsx:160-168 | The kept members stay in the canonical order. |
| PaymentClient.BuildEip712DomainTypes | app/page.tsx:160-168 | The `EIP712Domain` type lists exactly the domain members that are set, each with its canonical type, in the order name, version, chainId, verifyingContract, salt. |
| PaymentClient.FullDomainType | app/page.tsx:160-168 | A domain that sets all five members is described by all five, in that order. |
| PaymentClient.WithDomainType | app/page.tsx:174-178 | Types that already have `EIP712Domain` are kept as they are. Otherwise `EIP712Domain` is added and every original type is kept. |
| PaymentClient.NormalizeChainId | app/page.tsx:181-184 | A `chainId` string that matches `/^0x[0-9a-f]+$/i` becomes its numeric value. Any other `chainId`, and every other member, is left unchanged. |
| PaymentClient.NormalizeHexChainId | app/page.tsx:181-184 | A chain id written as `0x` and its hex digits normalises back to that number. |
| PaymentClient.NormalizeChainIdIdempotent | app/page.tsx:181-184 | Normalising twice is normalising once. |
| PaymentClient.NormalizeKeepsDomainType | app/page.tsx:174-184 | Normalisation keeps the set of domain members. So the type built from the original domain describes the domain that is signed. |
| PaymentClient.SignPayload | app/page.tsx:172-191 | The signing payload keeps the primary type and message. Its domain is the original with a hex `chainId` made a number. Its types are the original ones plus an `EIP712Domain` built from the domain when they lack one; that added type describes exactly the members the signed domain sets. |
| PaymentClient.RetryInit | app/page.tsx:226-234 | The retry keeps the method and body. Its headers are the original ones, overridden by the payment headers, plus `Access-Control-Expose-Headers: PAYMENT-RESPONSE,X-PAYMENT-RESPONSE`. It is marked as a retry. |
| PaymentClient.X402Fetch | app/page.tsx:206-237 | A first answer other than 402, or a failed fetch, is returned after exactly one fetch. On 402 the payment is created first. The wrapper then throws "Missing fetch request configuration" with no init, and "Payment already attempted" for a marked init. There is a second fetch exactly when the init is present, not marked, and payment succeeded; it uses the retry init, and its answer is returned as it is. There are never more than two fetches. |
| PaymentClient.RetryIsFinal | app/page.tsx:224 | A request marked as a retry is fetched once, whatever the answer. |
| PaymentClient.RetryInitIsMarked | app/page.tsx:224-236 | Feeding the retry back into the wrapper could not pay a second time. |
| PaymentClient.FailureMessage | app/page.tsx:290-293 | A non-ok answer fails with the body's `message`, else its `error`, else the raw text, else `HTTP <status>`. The message is never empty. |
| PaymentClient.ErrorDetails | app/page.tsx:291 | A truthy `message` member wins, as text. Without one, a truthy `error` member wins. Without either, the details are the raw text. They are empty only for an empty text, and differ from the text only when the data is an object. |
| PaymentClient.Report | app/page.tsx:281-309 | A non-ok answer or a thrown error gives its message. An ok answer whose data is `null` fails with the `TypeError` of reading `data.List`. Success is exactly an ok answer with non-null data, and carries that data. |
| PaymentClient.EmptyOkAnswerFails | app/page.tsx:281-300 | An ok answer with an empty body is reported as a failure. |
| PaymentClient.ChainSteps | app/page.tsx:261-268 | The chain id is read, and a switch to `0x2105` is asked for exactly when it is defined, non-empty and differs from `0x2105` ignoring letter case. |
| PaymentClient.SearchInit | app/page.tsx:270-280 | The search request is an unmarked JSON `POST` of the query, with limit 1000 and language `en`. |
| PaymentClient.SearchInitIsPaid | app/page.tsx:207-236 | The search's own request, answered with a 402 that is paid for, is retried exactly once with the query unchanged, and the retry's answer is returned. |
| PaymentClient.Send | app/page.tsx:259-293 | A failed chain read or chain switch stops before any fetch. Otherwise the search request is sent through the wrapper once, with at most two fetches, all to `/api/search`. |
| PaymentClient.MakeSearch | app/page.tsx:240-254 | An empty or all-white-space query, a missing wallet, or a missing payment wrapper is refused without any call, in that order of precedence. Anything else is sent. |
| UsdcBalance.BalanceCallData | app/page.tsx:97-98 | The call data is the `balanceOf` selector, then the lower-cased address without `0x`, left-padded with `0` to 64 characters. |
| UsdcBalance.BalanceCallDataOfAddress | app/page.tsx:85-98 | For a 20-byte address the call data is 74 characters: the selector, 24 zeros, then the 40 address digits in lower case. |
| UsdcBalance.StripTrailingZeros | app/page.tsx:129 | Removes exactly the trailing `0` characters, leaving a prefix that does not end in `0`. |
| UsdcBalance.FractionDigitsZero | app/page.tsx:126-130 | The fraction text is empty exactly when the amount is a whole number of units. |
| UsdcBalance.FormatFixed | app/page.tsx:126-130 | The text has a `.` exactly when the fraction is non-zero. |
| UsdcBalance.FormatFixedRoundTrip | app/page.tsx:126-130 | Reading the text back as whole units and up to `k` decimals yields the raw amount, for any `k >= 1`. |
| UsdcBalance.FormatUsdc | app/page.tsx:124-130 | The displayed balance reads back, with 6 decimals, as the raw amount. It has a `.` exactly when the amount is not a multiple of 10^6. |
| UsdcBalance.ParseBigInt | app/page.tsx:124 | A text reads exactly when it is a hex literal or non-empty unsigned decimal digits. A hex literal reads as its hex value, and decimal digits as their decimal value. |
| UsdcBalance.BalanceText | app/page.tsx:119-133 | A missing or empty result, or one `BigInt` cannot read, shows no balance. Every other result shows the formatting of the value `BigInt` reads from it. |
| UsdcBalance.BalanceTextOfHex | app/page.tsx:119-130 | Any hex literal result, in either case and with any leading zeros, is shown as the formatted amount it encodes, and that text reads back as the same amount. |
| UsdcBalance.BalanceTextOfWord | app/page.tsx:119-130 | A zero-padded hex word, as `eth_call` returns, is shown as the formatted amount it encodes, whatever the padding. |
| UsdcBalance.ParseHexLeadingZeros | app/page.tsx:124 | Leading zeros do not change the value of hex digits. |
| Http.SetAllSpec | app/api/search/route.ts:221-243 | Setting the entries of a header object on a response adds exactly their lower-cased names. An entry whose name no later entry repeats (up to case) sets that header's value, and every header no entry names is unchanged. |
| Http.SetAllLastWins | app/api/search/route.ts:241-243 | The last entry for a name decides that header's value. |

## Left out

- The `setInterval` sweep in the limiter constructor and `Date.now()`: cleanup is an explicit operation, and time is the `now` parameter.
- The x402 library (`processHTTPRequest`, `processSettlement`, `initialize`, the header decoders, `getPaymentRequiredResponse`, `createPaymentPayload`, `encodePaymentSignatureHeader`, `ExactEvmScheme`): foreign code. Its results are arguments of the model.
- The upstream OSINT API, `fetch`, the wallet's `request` calls and `new URL`: these are also arguments (outcome values or a parse function).
- Concurrent requests sharing `httpServerPromise`: only sequential calls are modelled.
- `app/api/x402/settle/route.ts`, `components/wallet-connect.tsx`, `app/layout.tsx`, `app/providers.tsx`, `components/miniapp-ready.tsx` and the farcaster manifest route: proxying, UI and static metadata, with no logic of the core.
- In `app/page.tsx`, several parts are not modelled:
  - JSX rendering, toasts and the loading flag;
  - the `chainChanged` listener;
  - RPC URL rotation, the 15-second poll and the 429 back-off;
  - the `BigInt.prototype.toJSON` patch.
- JSON parsing and serialisation: bodies are maps of values, and a reply that is not JSON is a separate outcome.
- The 429 body's `message`, which renders the reset time as an ISO date: the model keeps only `resetTime` and the headers.
- The `name`, `debug` and `hint` fields of the 500 body: `SearchRoute.InternalError` states `error` and `message` only.
- `processHTTPRequest` throwing: the library call's result is taken as given.
- The admin statistics literals (200, 50, 3600000) and the `timestamp`: they are constants of the reply, unrelated to the limiters.
- Strings.Lower: folds ASCII letters only, whereas `toLowerCase` folds all of Unicode.
- PaymentClient.NormalizeChainId: gives the exact value, whereas `Number.parseInt` loses precision above 2^53.
- PaymentClient.MakeSearch: the three refusals are a `Refusal` value instead of the Russian messages shown to the user.
- PaymentClient.RetryInit: a plain header object is a map. When the original and payment headers spell the same name in different cases, `fetch` would combine the two; that is not modelled.
- Http.ToJsString: shows every object or array as `[object Object]`, whereas JavaScript joins the elements of an array.
- SearchRoute.PaymentErrorResponse: when two library header entries, or a library entry and the route's content type, spell the same name in different letter cases, the `Headers` constructor would combine their values. The model keeps the last one.
- UsdcBalance.ParseBigInt: covers hex literals and unsigned decimal digits. It leaves out white space, the `0o` and `0b` forms, and a leading sign (`-5`, `+5`), all of which `BigInt` accepts. A negative result would be rendered through the truncating `/` and `%` of app/page.tsx:127-130; an `eth_call` result is an unsigned hex word, so the model reads only unsigned values.
- Http.Value: numbers are integers. A fractional JSON number is not represented. For `RunLeakOsint` this means an `Error code` such as `0.5`, truthy in JavaScript and so a 400, cannot be expressed. Booleans are represented.
- PaymentClient.Report: the `TypeError` message is V8's wording; other engines word it differently. The page also stores the `null` data before the error, which is UI state and not modelled.
