/** The payment side of the search page (app/page.tsx): the typed data the
    wallet is asked to sign, the fetch wrapper that answers one `402 Payment
    Required` with a paid retry, and the search action that drives it.
    The wallet, the x402 client library and the network are outside the
    model: what they return is passed in, and the calls made on them are
    recorded in a trace. */
module PaymentClient {
  import opened Wrappers
  import opened Strings
  import opened Http

  // -----------------------------------------------------------------------
  // EIP-712 typed data
  // -----------------------------------------------------------------------

  /** One member of an EIP-712 struct type. */
  datatype Field = Field(name: string, typ: string)

  /** The `domain` object of typed data. A name absent from the map is
      `undefined`. */
  type Domain = map<string, Value>

  /** `domain[name] != null`: the member is present and not `null`. */
  predicate HasValue(domain: Domain, name: string) {
    name in domain && domain[name] != Null
  }

  /** The members an `EIP712Domain` may have, in the order section
      "Definition of domainSeparator" of EIP-712 fixes for them. */
  const DomainFields: seq<Field> := [
    Field("name", "string"),
    Field("version", "string"),
    Field("chainId", "uint256"),
    Field("verifyingContract", "address"),
    Field("salt", "bytes32")
  ]

  /** Position of a domain member in the canonical order. */
  function FieldRank(name: string): nat {
    if name == "name" then 0
    else if name == "version" then 1
    else if name == "chainId" then 2
    else if name == "verifyingContract" then 3
    else 4
  }

  /** The members keep the canonical order. */
  predicate Ranked(fields: seq<Field>) {
    forall i, j :: 0 <= i < j < |fields| ==> FieldRank(fields[i].name) < FieldRank(fields[j].name)
  }

  /** The members of `fields`, in order, whose value `domain` sets. */
  function PresentFields(fields: seq<Field>, domain: Domain): (r: seq<Field>)
    ensures forall f :: f in r <==> f in fields && HasValue(domain, f.name)
    ensures |r| <= |fields|
  {
    if fields == [] then []
    else
      (if HasValue(domain, fields[0].name) then [fields[0]] else [])
      + PresentFields(fields[1..], domain)
  }

  /** Dropping members keeps the order of those that remain. */
  lemma {:induction false} PresentFieldsRanked(fields: seq<Field>, domain: Domain)
    requires Ranked(fields)
    ensures Ranked(PresentFields(fields, domain))
  {
    if fields != [] {
      var rest := PresentFields(fields[1..], domain);
      assert Ranked(fields[1..]) by {
        forall i, j | 0 <= i < j < |fields[1..]|
          ensures FieldRank(fields[1..][i].name) < FieldRank(fields[1..][j].name)
        {
          assert fields[1..][i] == fields[i + 1] && fields[1..][j] == fields[j + 1];
        }
      }
      PresentFieldsRanked(fields[1..], domain);
      forall f | f in rest
        ensures FieldRank(fields[0].name) < FieldRank(f.name)
      {
        var j :| 0 <= j < |fields[1..]| && fields[1..][j] == f;
        assert fields[j + 1] == f;
      }
    }
  }

  /** The canonical list is in canonical order. */
  lemma DomainFieldsRanked()
    ensures Ranked(DomainFields)
  {
    forall i, j | 0 <= i < j < |DomainFields|
      ensures FieldRank(DomainFields[i].name) < FieldRank(DomainFields[j].name)
    {
      assert FieldRank(DomainFields[i].name) == i;
      assert FieldRank(DomainFields[j].name) == j;
    }
  }

  /** The `EIP712Domain` type describing exactly the members `domain` sets,
      each with its canonical type, in canonical order. */
  function BuildEip712DomainTypes(domain: Domain): (r: seq<Field>)
    ensures forall f :: f in r <==> f in DomainFields && HasValue(domain, f.name)
    ensures Ranked(r)
  {
    DomainFieldsRanked();
    PresentFieldsRanked(DomainFields, domain);
    PresentFields(DomainFields, domain)
  }

  /** Only which members are set matters. */
  lemma {:induction false} PresentFieldsDependOnPresence(fields: seq<Field>, d1: Domain, d2: Domain)
    requires forall f :: f in fields ==> (HasValue(d1, f.name) <==> HasValue(d2, f.name))
    ensures PresentFields(fields, d1) == PresentFields(fields, d2)
  {
    if fields != [] {
      PresentFieldsDependOnPresence(fields[1..], d1, d2);
    }
  }

  /** When every member is set, nothing is dropped. */
  lemma {:induction false} PresentFieldsAll(fields: seq<Field>, domain: Domain)
    requires forall f :: f in fields ==> HasValue(domain, f.name)
    ensures PresentFields(fields, domain) == fields
  {
    if fields != [] {
      PresentFieldsAll(fields[1..], domain);
      assert [fields[0]] + fields[1..] == fields;
    }
  }

  /** A domain that sets every member is described by all five, in order. */
  lemma FullDomainType(domain: Domain)
    requires forall f :: f in DomainFields ==> HasValue(domain, f.name)
    ensures BuildEip712DomainTypes(domain) == DomainFields
  {
    PresentFieldsAll(DomainFields, domain);
  }

  /** The struct types of typed data, by type name. */
  type Types = map<string, seq<Field>>

  const DomainTypeName := "EIP712Domain"

  /** Adds `EIP712Domain` when the types lack it; existing types win. */
  function WithDomainType(types: Types, domain: Domain): (r: Types)
    ensures r.Keys == types.Keys + {DomainTypeName}
    ensures forall k :: k in types ==> r[k] == types[k]
    ensures DomainTypeName !in types ==> r[DomainTypeName] == BuildEip712DomainTypes(domain)
  {
    if DomainTypeName in types then types
    else map[DomainTypeName := BuildEip712DomainTypes(domain)] + types
  }

  /** Replaces a hex-string `chainId` by its number; every other member,
      and a `chainId` of any other form, is kept. */
  function NormalizeChainId(domain: Domain): (r: Domain)
    ensures r.Keys == domain.Keys
    ensures forall k :: k in domain && k != "chainId" ==> r[k] == domain[k]
    ensures "chainId" in domain && domain["chainId"].Str? && IsHexLiteral(domain["chainId"].s)
      ==> r["chainId"] == Num(ParseHex(domain["chainId"].s[2..]))
    ensures !("chainId" in domain && domain["chainId"].Str? && IsHexLiteral(domain["chainId"].s))
      ==> r == domain
  {
    if "chainId" in domain && domain["chainId"].Str? && IsHexLiteral(domain["chainId"].s)
    then domain["chainId" := Num(ParseHex(domain["chainId"].s[2..]))]
    else domain
  }

  /** A chain id written as `0x` and hex digits becomes that number. */
  lemma NormalizeHexChainId(domain: Domain, n: nat)
    ensures NormalizeChainId(domain["chainId" := Str("0x" + NatToHex(n))])["chainId"] == Num(n)
  {
    var s := "0x" + NatToHex(n);
    assert s[2..] == NatToHex(n);
    ParseHexToHex(n);
  }

  /** Normalising twice is normalising once. */
  lemma NormalizeChainIdIdempotent(domain: Domain)
    ensures NormalizeChainId(NormalizeChainId(domain)) == NormalizeChainId(domain)
  {
  }

  /** Normalisation keeps every member set, so the domain type built from
      the original domain describes the normalised one too. */
  lemma NormalizeKeepsDomainType(domain: Domain)
    ensures BuildEip712DomainTypes(NormalizeChainId(domain)) == BuildEip712DomainTypes(domain)
  {
    PresentFieldsDependOnPresence(DomainFields, NormalizeChainId(domain), domain);
  }

  /** Typed data as the x402 scheme hands it to the signer. */
  datatype TypedData = TypedData(domain: Domain, types: Types, primaryType: string, message: Value)

  /** The payload sent to `eth_signTypedData_v4`. */
  function SignPayload(td: TypedData): (r: TypedData)
    ensures r.primaryType == td.primaryType && r.message == td.message
    ensures DomainTypeName in r.types
    ensures forall k :: k in td.types ==> k in r.types && r.types[k] == td.types[k]
    ensures r.types.Keys == td.types.Keys + {DomainTypeName}
    ensures r.domain.Keys == td.domain.Keys
    ensures r.domain == NormalizeChainId(td.domain)
    ensures r.types == WithDomainType(td.types, td.domain)
    ensures DomainTypeName !in td.types ==>
      r.types[DomainTypeName] == BuildEip712DomainTypes(r.domain)
    ensures DomainTypeName !in td.types ==>
      forall f :: f in r.types[DomainTypeName] ==> HasValue(r.domain, f.name)
  {
    NormalizeKeepsDomainType(td.domain);
    TypedData(NormalizeChainId(td.domain), WithDomainType(td.types, td.domain), td.primaryType, td.message)
  }

  // -----------------------------------------------------------------------
  // The paying fetch wrapper
  // -----------------------------------------------------------------------

  /** The JSON body of a search request. */
  datatype SearchRequest = SearchRequest(request: string, limit: int, lang: string)

  /** A plain object of request headers; a later spread overrides an
      earlier one key by key. */
  type HeaderMap = map<string, string>

  /** The `RequestInit` of a call; `retryMarked` is `__is402Retry`. */
  datatype Init = Init(verb: string, headers: Option<HeaderMap>, body: SearchRequest, retryMarked: bool)

  /** `rawText ? JSON.parse(rawText) : null`: `null` for an empty or
      unparsable text (and for the text `null`), an object, or any other
      JSON value other than `null`, which `NullData` alone stands for. */
  datatype Data = NullData | ObjectData(members: Body) | OtherData(v: NonNull)

  /** A JSON value that is not `null`. */
  type NonNull = v: Value | !v.Null? witness Bool(false)

  /** What `fetch` resolves to: the status, the body text, and that text
      as parsed. */
  datatype FetchResponse = FetchResponse(status: int, text: string, data: Data)

  const PaymentRequiredStatus := 402
  const ExposeHeadersName := "Access-Control-Expose-Headers"
  const ExposeHeadersValue := "PAYMENT-RESPONSE,X-PAYMENT-RESPONSE"
  const MissingInitMessage := "Missing fetch request configuration"
  const AlreadyAttemptedMessage := "Payment already attempted"

  /** Calls made to the outside world. */
  datatype ClientEvent =
    | Fetch(input: string, init: Option<Init>)
    | CreatePayment
    | ReadChainId
    | SwitchChain(chainId: string)

  /** What the outside world answers, in call order: the first fetch, the
      payment headers the x402 client produces, and the retried fetch. The
      payment step (`CreatePayment`) stands for reading the 402, building and
      signing the payload, and encoding the header; it may fail at any of
      these, including before the wallet is asked to sign. */
  datatype FetchWorld = FetchWorld(
    first: Attempt<FetchResponse>,
    payment: Attempt<HeaderMap>,
    retry: Attempt<FetchResponse>)

  function CountFetches(trace: seq<ClientEvent>): nat {
    if trace == [] then 0
    else CountFetches(trace[..|trace| - 1]) + (if trace[|trace| - 1].Fetch? then 1 else 0)
  }

  /** The init of the paid retry: the original headers, overridden by the
      payment headers, plus the expose-headers entry; marked as a retry. */
  function RetryInit(init: Init, paymentHeaders: HeaderMap): (r: Init)
    ensures r.verb == init.verb && r.body == init.body && r.retryMarked
    ensures r.headers.Some?
    ensures var h := r.headers.value;
      && h.Keys == init.headers.GetOr(map[]).Keys + paymentHeaders.Keys + {ExposeHeadersName}
      && h[ExposeHeadersName] == ExposeHeadersValue
      && (forall k :: k in paymentHeaders && k != ExposeHeadersName ==> h[k] == paymentHeaders[k])
      && (forall k :: k in init.headers.GetOr(map[]) && k !in paymentHeaders && k != ExposeHeadersName
            ==> h[k] == init.headers.GetOr(map[])[k])
  {
    var original := init.headers.GetOr(map[]);
    Init(init.verb, Some(original + paymentHeaders + map[ExposeHeadersName := ExposeHeadersValue]),
         init.body, true)
  }

  /** `x402Fetch(input, init)`: a response other than 402 is returned as it
      is; a 402 is paid for and the request retried once with the payment
      headers, unless there is no init or it already is a retry. */
  function X402Fetch(input: string, init: Option<Init>, w: FetchWorld): (r: (Attempt<FetchResponse>, seq<ClientEvent>))
    ensures |r.1| >= 1 && r.1[0] == Fetch(input, init)
    ensures forall e :: e in r.1 ==> (e.Fetch? && e.input == input) || e.CreatePayment?
    ensures CountFetches(r.1) <= 2
    ensures w.first.Threw? || w.first.value.status != PaymentRequiredStatus ==> r == (w.first, [Fetch(input, init)])
    ensures w.first.Done? && w.first.value.status == PaymentRequiredStatus ==>
      && |r.1| >= 2 && r.1[1] == CreatePayment
      && (w.payment.Threw? ==> r == (Threw(w.payment.error), [Fetch(input, init), CreatePayment]))
      && (w.payment.Done? && init.None? ==> r.0 == Threw(Error("Error", MissingInitMessage)))
      && (w.payment.Done? && init.Some? && init.value.retryMarked ==> r.0 == Threw(Error("Error", AlreadyAttemptedMessage)))
    ensures CountFetches(r.1) == 2 <==>
      && w.first.Done? && w.first.value.status == PaymentRequiredStatus
      && w.payment.Done? && init.Some? && !init.value.retryMarked
    ensures CountFetches(r.1) == 2 ==>
      r == (w.retry, [Fetch(input, init), CreatePayment, Fetch(input, Some(RetryInit(init.value, w.payment.value)))])
  {
    var first := [Fetch(input, init)];
    match w.first
    case Threw(e) => (Threw(e), first)
    case Done(resp) =>
      if resp.status != PaymentRequiredStatus then (w.first, first)
      else
        var paid := [Fetch(input, init), CreatePayment];
        assert CountFetches(paid) == 1 by { assert paid[..1] == first; }
        match w.payment
        case Threw(e) => (Threw(e), paid)
        case Done(headers) =>
          if init.None? then (Threw(Error("Error", MissingInitMessage)), paid)
          else if init.value.retryMarked then (Threw(Error("Error", AlreadyAttemptedMessage)), paid)
          else
            var retried := [Fetch(input, init), CreatePayment, Fetch(input, Some(RetryInit(init.value, headers)))];
            assert retried[..2] == paid;
            (w.retry, retried)
  }

  /** A retry-marked request is never retried again: whatever the answer,
      the wrapper fetches once. */
  lemma RetryIsFinal(input: string, init: Init, w: FetchWorld)
    requires init.retryMarked
    ensures CountFetches(X402Fetch(input, Some(init), w).1) == 1
  {
  }

  /** The retry carries the marker, so feeding it back into the wrapper
      could not pay a second time. */
  lemma RetryInitIsMarked(init: Init, paymentHeaders: HeaderMap, input: string, w: FetchWorld)
    ensures CountFetches(X402Fetch(input, Some(RetryInit(init, paymentHeaders)), w).1) == 1
  {
    RetryIsFinal(input, RetryInit(init, paymentHeaders), w);
  }

  // -----------------------------------------------------------------------
  // The search action
  // -----------------------------------------------------------------------

  /** Why a search is refused before anything is sent. */
  datatype Refusal = EmptyQuery | NoWallet | PaymentUnavailable

  datatype SearchOutcome =
    | Refused(reason: Refusal)
    | Failed(message: string)
    | Succeeded(data: Data)

  /** What the wallet answers: the current chain id (None for `undefined`)
      and the outcome of a chain switch (None when it succeeds). */
  datatype Wallet = Wallet(chainId: Attempt<Option<string>>, switchError: Option<Error>)

  const SearchPath := "/api/search"
  /** Base mainnet, chain 8453. */
  const BaseChainIdHex := "0x2105"
  const SearchLimit := 1000
  const SearchLang := "en"

  /** The init `makeSearch` passes to the wrapper: a fresh, unmarked JSON
      `POST` of the query with limit 1000 and language `en`. */
  function SearchInit(query: string): (r: Init)
    ensures r.verb == "POST" && !r.retryMarked
    ensures r.headers == Some(map["Content-Type" := "application/json"])
    ensures r.body.request == query && r.body.limit == 1000 && r.body.lang == "en"
  {
    Init("POST", Some(map["Content-Type" := "application/json"]), SearchRequest(query, SearchLimit, SearchLang), false)
  }

  /** The search's own request is never refused as a repeated payment: a
      402 that is paid for is retried, once, with the query unchanged. */
  lemma SearchInitIsPaid(query: string, w: FetchWorld)
    requires w.first.Done? && w.first.value.status == PaymentRequiredStatus && w.payment.Done?
    ensures var r := X402Fetch(SearchPath, Some(SearchInit(query)), w);
      && CountFetches(r.1) == 2 && r.0 == w.retry
      && r.1[2].init.value.body.request == query
  {
  }

  /** A chain switch is requested for a defined, non-empty chain id that is
      not Base's, compared without regard to case. */
  predicate NeedsSwitch(chainId: Option<string>) {
    chainId.Some? && chainId.value != "" && Lower(chainId.value) != BaseChainIdHex
  }

  /** `response.ok`. */
  predicate Ok(resp: FetchResponse) {
    200 <= resp.status <= 299
  }

  /** `data?.m` for a member `m`: only an object has members. */
  function Member(data: Data, m: string): Option<Value> {
    if data.ObjectData? && m in data.members then Some(data.members[m]) else None
  }

  /** Whether the parsed body is an object whose member `m` is truthy. */
  predicate TruthyMember(data: Data, m: string) {
    data.ObjectData? && m in data.members && Truthy(data.members[m])
  }

  /** `data?.message || data?.error || rawText || ""`, as text: the first
      truthy of the two members wins, and the raw text is the fallback. */
  function ErrorDetails(resp: FetchResponse): (r: string)
    ensures TruthyMember(resp.data, "message") ==>
      r == ToJsString(resp.data.members["message"])
    ensures !TruthyMember(resp.data, "message") && TruthyMember(resp.data, "error") ==>
      r == ToJsString(resp.data.members["error"])
    ensures !TruthyMember(resp.data, "message") && !TruthyMember(resp.data, "error") ==>
      r == resp.text
    ensures r == "" ==> resp.text == ""
    ensures r != resp.text ==> resp.data.ObjectData?
  {
    var message := Member(resp.data, "message");
    var error := Member(resp.data, "error");
    if message.Some? && Truthy(message.value) then ToJsString(message.value)
    else if error.Some? && Truthy(error.value) then ToJsString(error.value)
    else resp.text
  }

  /** The message of the error thrown for a response that is not ok. */
  function FailureMessage(resp: FetchResponse): (r: string)
    ensures r != ""
    ensures ErrorDetails(resp) != "" ==> r == ErrorDetails(resp)
    ensures ErrorDetails(resp) == "" ==> r == "HTTP " + IntToString(resp.status)
  {
    var details := ErrorDetails(resp);
    if details != "" then details else "HTTP " + IntToString(resp.status)
  }

  /** The message of the `TypeError` that reading `data.List` on `null`
      throws (V8's wording). */
  const NullDataMessage := "Cannot read properties of null (reading 'List')"

  /** How `makeSearch` reports the outcome of the paid request: an ok
      answer succeeds unless its data is `null`, where counting `data.List`
      throws inside the `try` and the catch reports that error. */
  function Report(a: Attempt<FetchResponse>): (r: SearchOutcome)
    ensures !r.Refused?
    ensures r.Succeeded? <==> a.Done? && Ok(a.value) && !a.value.data.NullData?
    ensures r.Succeeded? ==> r.data == a.value.data
    ensures a.Done? && Ok(a.value) && a.value.data.NullData? ==> r == Failed(NullDataMessage)
    ensures a.Done? && !Ok(a.value) ==> r == Failed(FailureMessage(a.value))
    ensures a.Threw? ==> r == Failed(a.error.message)
  {
    match a
    case Threw(e) => Failed(e.message)
    case Done(resp) =>
      if !Ok(resp) then Failed(FailureMessage(resp))
      else if resp.data.NullData? then Failed(NullDataMessage)
      else Succeeded(resp.data)
  }

  /** An ok answer with an empty body is reported as a failure, not as a
      success without data. */
  lemma EmptyOkAnswerFails(status: int)
    requires 200 <= status <= 299
    ensures Report(Done(FetchResponse(status, "", NullData))).Failed?
  {
  }

  /** The calls before the request: read the chain id, and switch to Base
      when needed. */
  function ChainSteps(chainId: Option<string>): (r: seq<ClientEvent>)
    ensures |r| >= 1 && r[0] == ReadChainId
    ensures CountFetches(r) == 0
    ensures SwitchChain(BaseChainIdHex) in r <==> NeedsSwitch(chainId)
    ensures forall e :: e in r ==> e == ReadChainId || e == SwitchChain(BaseChainIdHex)
  {
    assert CountFetches([ReadChainId]) == 0 by { assert [ReadChainId][..0] == []; }
    if NeedsSwitch(chainId) then
      var r := [ReadChainId, SwitchChain(BaseChainIdHex)];
      assert r[..1] == [ReadChainId];
      r
    else [ReadChainId]
  }

  /** `makeSearch` past its guards: the chain check, then the paid request. */
  function Send(query: string, wallet: Wallet, w: FetchWorld): (r: (SearchOutcome, seq<ClientEvent>))
    ensures !r.0.Refused?
    ensures |r.1| >= 1 && r.1[0] == ReadChainId
    ensures CountFetches(r.1) <= 2
    ensures SwitchChain(BaseChainIdHex) in r.1 <==> wallet.chainId.Done? && NeedsSwitch(wallet.chainId.value)
    ensures forall e :: e in r.1 && e.SwitchChain? ==> e.chainId == BaseChainIdHex
    ensures forall e :: e in r.1 && e.Fetch? ==> e.input == SearchPath
    ensures CountFetches(r.1) >= 1 <==>
      wallet.chainId.Done? && !(NeedsSwitch(wallet.chainId.value) && wallet.switchError.Some?)
    ensures CountFetches(r.1) >= 1 ==>
      var sent := X402Fetch(SearchPath, Some(SearchInit(query)), w);
      r.0 == Report(sent.0) && r.1 == ChainSteps(wallet.chainId.value) + sent.1
  {
    match wallet.chainId
    case Threw(e) =>
      assert CountFetches([ReadChainId]) == 0 by { assert [ReadChainId][..0] == []; }
      (Failed(e.message), [ReadChainId])
    case Done(chainId) =>
      var steps := ChainSteps(chainId);
      if NeedsSwitch(chainId) && wallet.switchError.Some? then (Failed(wallet.switchError.value.message), steps)
      else
        var sent := X402Fetch(SearchPath, Some(SearchInit(query)), w);
        SendTrace(steps, sent.1);
        (Report(sent.0), steps + sent.1)
  }

  /** The chain steps followed by the wrapper's calls: the chain steps
      fetch nothing and the wrapper switches no chain. */
  lemma SendTrace(steps: seq<ClientEvent>, fetches: seq<ClientEvent>)
    requires CountFetches(steps) == 0 && |steps| >= 1 && steps[0] == ReadChainId
    requires forall e :: e in steps ==> e == ReadChainId || e == SwitchChain(BaseChainIdHex)
    requires forall e :: e in fetches ==> (e.Fetch? && e.input == SearchPath) || e.CreatePayment?
    requires 1 <= CountFetches(fetches) <= 2
    ensures var t := steps + fetches;
      && CountFetches(t) == CountFetches(fetches)
      && t[0] == ReadChainId
      && (SwitchChain(BaseChainIdHex) in t <==> SwitchChain(BaseChainIdHex) in steps)
      && (forall e :: e in t && e.SwitchChain? ==> e.chainId == BaseChainIdHex)
      && (forall e :: e in t && e.Fetch? ==> e.input == SearchPath)
  {
    CountFetchesAppend(steps, fetches);
  }

  /** `makeSearch`: refuse an empty query, a missing wallet or a missing
      payment wrapper without any call; otherwise send. */
  function MakeSearch(query: string, walletAddress: string, hasEthereum: bool, wallet: Wallet, w: FetchWorld)
    : (r: (SearchOutcome, seq<ClientEvent>))
    ensures Trim(query) == [] ==> r == (Refused(EmptyQuery), [])
    ensures Trim(query) != [] && walletAddress == "" ==> r == (Refused(NoWallet), [])
    ensures Trim(query) != [] && walletAddress != "" && !hasEthereum ==> r == (Refused(PaymentUnavailable), [])
    ensures r.0.Refused? <==> Trim(query) == [] || walletAddress == "" || !hasEthereum
    ensures !r.0.Refused? ==> r == Send(query, wallet, w)
  {
    if Trim(query) == [] then (Refused(EmptyQuery), [])
    else if walletAddress == "" then (Refused(NoWallet), [])
    else if !hasEthereum then (Refused(PaymentUnavailable), [])
    else Send(query, wallet, w)
  }

  lemma {:induction false} CountFetchesAppend(a: seq<ClientEvent>, b: seq<ClientEvent>)
    ensures CountFetches(a + b) == CountFetches(a) + CountFetches(b)
    decreases |b|
  {
    if b == [] {
      assert a + b == a;
    } else {
      assert (a + b)[..|a + b| - 1] == a + b[..|b| - 1];
      CountFetchesAppend(a, b[..|b| - 1]);
    }
  }
}
