/** JSON values and HTTP responses as the routes build them.
    Header maps of a response are keyed by lower-cased names, because the
    `Headers` object of the web platform folds header names to lower case. */
module Http {
  import opened Wrappers
  import opened Strings

  /** A JSON value. Numbers are integers. `Foreign` stands for an object or
      array produced by code outside the model (an upstream result, a decoded
      x402 header). */
  datatype Value = Null | Bool(b: bool) | Str(s: string) | Num(n: int) | Foreign(id: nat)

  /** JavaScript truthiness of a value. */
  predicate Truthy(v: Value) {
    match v
    case Null => false
    case Bool(b) => b
    case Str(s) => s != ""
    case Num(n) => n != 0
    case Foreign(_) => true
  }

  /** `String(v)`; every object or array reads as `[object Object]`. */
  function ToJsString(v: Value): string {
    match v
    case Null => "null"
    case Bool(b) => if b then "true" else "false"
    case Str(s) => s
    case Num(n) => IntToString(n)
    case Foreign(_) => "[object Object]"
  }

  /** A thrown JavaScript error. */
  datatype Error = Error(name: string, message: string)

  /** The outcome of a call that may throw. */
  datatype Attempt<+T> = Done(value: T) | Threw(error: Error)

  /** A JSON object body. */
  type Body = map<string, Value>

  type Headers = map<string, string>

  datatype Response = Response(status: int, headers: Headers, body: Body)

  /** `headers.set(name, value)` on a `Headers` object. */
  function SetHeader(h: Headers, name: string, value: string): (r: Headers)
    ensures Lower(name) in r && r[Lower(name)] == value
    ensures forall k :: k in h && k != Lower(name) ==> k in r && r[k] == h[k]
    ensures r.Keys == h.Keys + {Lower(name)}
  {
    h[Lower(name) := value]
  }

  /** A plain JavaScript object of header strings, in insertion order
      (what `Object.entries` yields). Names are case-sensitive here. */
  type HeaderObject = seq<(string, string)>

  /** Property lookup `obj[name]` on a header object; None for `undefined`. */
  function Lookup(obj: HeaderObject, name: string): (r: Option<string>)
    ensures r.Some? <==> exists i :: 0 <= i < |obj| && obj[i].0 == name
    ensures r.Some? ==> exists i :: 0 <= i < |obj| && obj[i] == (name, r.value)
  {
    if obj == [] then None
    else if obj[|obj| - 1].0 == name then Some(obj[|obj| - 1].1)
    else Lookup(obj[..|obj| - 1], name)
  }

  /** The lower-cased names of a header object's entries. */
  function Names(obj: HeaderObject): (r: set<string>)
    ensures forall i :: 0 <= i < |obj| ==> Lower(obj[i].0) in r
  {
    if obj == [] then {} else Names(obj[..|obj| - 1]) + {Lower(obj[|obj| - 1].0)}
  }

  /** Sets every entry of a header object on a `Headers` map in order, so a
      later entry wins over an earlier one and over what `h` held (both the
      spread of an object into `new Headers` and a loop of `set` calls). */
  function SetAll(h: Headers, obj: HeaderObject): Headers
  {
    if obj == [] then h
    else SetHeader(SetAll(h, obj[..|obj| - 1]), obj[|obj| - 1].0, obj[|obj| - 1].1)
  }

  /** Every entry's name ends up set, an entry whose name no later entry
      repeats (up to case) wins, and a header no entry names keeps its value. */
  lemma {:induction false} SetAllSpec(h: Headers, obj: HeaderObject)
    ensures SetAll(h, obj).Keys == h.Keys + Names(obj)
    ensures forall i :: 0 <= i < |obj| ==> Lower(obj[i].0) in SetAll(h, obj)
    ensures forall k :: k in h && k !in Names(obj) ==> SetAll(h, obj)[k] == h[k]
    ensures forall i :: 0 <= i < |obj| && LastOfName(obj, i) ==> SetAll(h, obj)[Lower(obj[i].0)] == obj[i].1
  {
    if obj != [] {
      SetAllSpec(h, obj[..|obj| - 1]);
    }
    forall i | 0 <= i < |obj| && LastOfName(obj, i)
      ensures SetAll(h, obj)[Lower(obj[i].0)] == obj[i].1
    {
      SetAllLastWins(h, obj, i);
    }
  }

  /** No entry after the `i`-th names the same header. */
  predicate LastOfName(obj: HeaderObject, i: nat)
    requires i < |obj|
  {
    forall j :: i < j < |obj| ==> Lower(obj[j].0) != Lower(obj[i].0)
  }

  /** The last entry for a name decides that header's value. */
  lemma {:induction false} SetAllLastWins(h: Headers, obj: HeaderObject, i: nat)
    requires i < |obj| && LastOfName(obj, i)
    ensures Lower(obj[i].0) in SetAll(h, obj) && SetAll(h, obj)[Lower(obj[i].0)] == obj[i].1
  {
    var m := |obj| - 1;
    if i < m {
      var prefix := obj[..m];
      assert prefix[i] == obj[i];
      assert LastOfName(prefix, i) by {
        forall j | i < j < |prefix| ensures Lower(prefix[j].0) != Lower(prefix[i].0) {
          assert prefix[j] == obj[j];
        }
      }
      SetAllLastWins(h, prefix, i);
      assert Lower(obj[m].0) != Lower(obj[i].0);
    }
  }

  /** `NextResponse.json(body, {status})`: a JSON body with its content type. */
  function Json(status: int, body: Body): (r: Response)
    ensures r.status == status && r.body == body
    ensures "content-type" in r.headers && r.headers["content-type"] == "application/json"
  {
    Response(status, map["content-type" := "application/json"], body)
  }
}
