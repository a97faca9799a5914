/**
 * The request-construction layer of the exchange client. Every API method is modelled
 * as the request it would hand to the HTTP transport: a method, the full URL (`BASE`
 * followed by the endpoint's path), the query parameters as a map, and the Basic-auth
 * pair when one is attached. Sending the request and decoding the reply are not part
 * of this model.
 */
module Api {
  import opened Wrappers
  import opened External
  import DecimalText
  import opened Models

  /** The exchange's origin; every URL starts with it. */
  const BASE: string := "https://api.hitbtc.com"

  // The endpoint paths, as the client writes them (the prefixes differ).
  const CURRENCY_PATH: string := "/api/2/public/currency"
  const DEPOSIT_ADDRESS_PATH: string := "/api/2/account/crypto/address/"
  const TRANSACTIONS_PATH: string := "/api/v2/account/transactions"
  const TRANSFER_PATH: string := "/api/v2/account/transfer"

  datatype Method = Get | Post

  /** The Basic-auth user name and password, before any encoding. */
  datatype BasicAuth = BasicAuth(user: string, password: string)

  /** What the client hands to the transport. */
  datatype HttpRequest = HttpRequest(
    verb: Method,
    url: string,
    query: map<string, string>,
    auth: Option<BasicAuth>)

  /** `url` is `BASE` immediately followed by `path`. */
  predicate UrlOf(url: string, path: string) {
    |url| == |BASE| + |path| && url[..|BASE|] == BASE && url[|BASE|..] == path
  }

  lemma UrlOfIsConcatenation(url: string, path: string)
    ensures UrlOf(url, path) <==> url == BASE + path
  {
    if UrlOf(url, path) {
      assert url == url[..|BASE|] + url[|BASE|..];
    }
  }

  // ---------------------------------------------------------------------------
  // The public client

  datatype Client = Client(httpClient: HttpClient) {
    /** `Client::request` up to the send: no credentials are attached. */
    function Request(verb: Method, path: string, query: map<string, string>): (r: HttpRequest)
      ensures r.verb == verb && r.query == query
      ensures UrlOf(r.url, path)
      ensures r.auth.None?
    {
      HttpRequest(verb, BASE + path, query, None)
    }

    /** The currency list: a GET with no parameters (the unit query serializes to none). */
    function GetCurrencies(): (r: HttpRequest)
      ensures r.verb == Get
      ensures UrlOf(r.url, CURRENCY_PATH)
      ensures r.query == map[] && r.auth.None?
    {
      Request(Get, CURRENCY_PATH, map[])
    }

    /** Consumes the public client into an authenticated one holding the pair. */
    function Login(apiKey: string, apiSecret: string): (r: AuthenticatedClient)
      ensures r.Credentials() == BasicAuth(apiKey, apiSecret)
      ensures r.Logout() == this
    {
      AuthenticatedClient(this, apiKey, apiSecret)
    }
  }

  // ---------------------------------------------------------------------------
  // The authenticated client

  datatype AuthenticatedClient = AuthenticatedClient(public: Client, apiKey: string, apiSecret: string) {
    /** Gives back the public client; the credentials are dropped. */
    function Logout(): (r: Client)
      ensures AuthenticatedClient(r, apiKey, apiSecret) == this
    {
      public
    }

    /** The pair every authenticated request carries: the key as user, the secret as password. */
    function Credentials(): BasicAuth {
      BasicAuth(apiKey, apiSecret)
    }

    /** `AuthenticatedClient::request` up to the send: Basic auth with the stored pair. */
    function Request(verb: Method, path: string, query: map<string, string>): (r: HttpRequest)
      ensures r.verb == verb && r.query == query
      ensures UrlOf(r.url, path)
      ensures r.auth == Some(BasicAuth(apiKey, apiSecret))
    {
      HttpRequest(verb, BASE + path, query, Some(Credentials()))
    }

    /**
     * The client has no `get_currencies` of its own: the call resolves through `Deref`
     * to the public client, so the request goes out without credentials.
     */
    function GetCurrencies(): (r: HttpRequest)
      ensures r == public.GetCurrencies()
      ensures r.auth.None?
    {
      public.GetCurrencies()
    }

    /** The deposit address of `currency`: a POST whose path ends in the currency code. */
    function GetDepositAddress(currency: string): (r: HttpRequest)
      ensures r.verb == Post
      ensures UrlOf(r.url, DEPOSIT_ADDRESS_PATH + currency)
      ensures r.query == map[]
      ensures r.auth == Some(Credentials())
    {
      Request(Post, DEPOSIT_ADDRESS_PATH + currency, map[])
    }

    /**
     * The transaction history: a GET whose path names one transaction when an id is
     * given, with a query parameter for each filter that is set.
     */
    method GetTransactionsHistory(
      transactionId: Option<string>,
      from: Option<DateTime>,
      till: Option<DateTime>,
      limit: Option<DecimalText.U64>,
      render: Renderers)
      returns (r: HttpRequest)
      ensures r.verb == Get
      ensures transactionId.None? ==> UrlOf(r.url, TRANSACTIONS_PATH)
      ensures transactionId.Some? ==> UrlOf(r.url, TRANSACTIONS_PATH + "/" + transactionId.value)
      ensures r.query == HistoryQuery(from, till, limit, render)
      ensures r.auth == Some(Credentials())
    {
      var url := TRANSACTIONS_PATH;
      if transactionId.Some? {
        url := url + "/" + transactionId.value;
      }
      var queryParams := HistoryQuery(from, till, limit, render);
      r := Request(Get, url, queryParams);
    }

    /**
     * A transfer between the bank and the exchange account. The `type` parameter is
     * `serde_json::to_string` of the direction, which cannot fail for a unit variant
     * and yields the wire name inside JSON double quotes.
     */
    function TransferAccountMoney(
      currency: string,
      amount: BigDecimal,
      direction: AccountMoneyTransferDirection,
      render: Renderers)
      : (r: Result<HttpRequest, SerializeError>)
      ensures r.Ok?
      ensures r.value.verb == Post
      ensures UrlOf(r.value.url, TRANSFER_PATH)
      ensures r.value.query.Keys == {"currency", "amount", "type"}
      ensures r.value.query["currency"] == currency
      ensures r.value.query["amount"] == render.decimalToString(amount)
      ensures r.value.query["type"] == "\"" + direction.WireName() + "\""
      ensures r.value.auth == Some(Credentials())
    {
      match direction.ToJsonString()
      case Err(e) => Err(e)
      case Ok(typeParam) =>
        Ok(Request(Post, TRANSFER_PATH, map[
          "currency" := currency,
          "amount" := render.decimalToString(amount),
          "type" := typeParam]))
    }

    /**
     * The transfer with the bare wire name as `type`, the value the API documents
     * for the parameter.
     */
    function TransferAccountMoneyIntended(
      currency: string,
      amount: BigDecimal,
      direction: AccountMoneyTransferDirection,
      render: Renderers)
      : (r: HttpRequest)
      ensures r.verb == Post
      ensures UrlOf(r.url, TRANSFER_PATH)
      ensures r.query.Keys == {"currency", "amount", "type"}
      ensures r.query["currency"] == currency
      ensures r.query["amount"] == render.decimalToString(amount)
      ensures r.query["type"] == direction.WireName()
      ensures r.auth == Some(Credentials())
    {
      Request(Post, TRANSFER_PATH, map[
        "currency" := currency,
        "amount" := render.decimalToString(amount),
        "type" := direction.WireName()])
    }
  }

  // ---------------------------------------------------------------------------
  // The history query

  /** The items an `Option` yields as an iterator: none or one. */
  function Items<T>(o: Option<T>): (r: seq<T>)
    ensures |r| <= 1
    ensures o.Some? <==> |r| == 1
    ensures o.Some? ==> r[0] == o.value
  {
    if o.Some? then [o.value] else []
  }

  /**
   * Collecting key/value pairs into a `HashMap` that already holds `m`: each pair is
   * inserted in turn, so a later pair replaces an earlier one with the same key.
   */
  function CollectInto(m: map<string, string>, pairs: seq<(string, string)>): (r: map<string, string>)
    ensures m.Keys <= r.Keys
    decreases |pairs|
  {
    if pairs == [] then m else CollectInto(m[pairs[0].0 := pairs[0].1], pairs[1..])
  }

  /** Collecting a concatenation is collecting the second part into the result of the first. */
  lemma {:induction false} CollectIntoAppend(m: map<string, string>, a: seq<(string, string)>, b: seq<(string, string)>)
    ensures CollectInto(m, a + b) == CollectInto(CollectInto(m, a), b)
    decreases |a|
  {
    if a == [] {
      assert a + b == b;
    } else {
      assert (a + b)[0] == a[0];
      assert (a + b)[1..] == a[1..] + b;
      CollectIntoAppend(m[a[0].0 := a[0].1], a[1..], b);
    }
  }

  /**
   * Collecting yields exactly the keys of `m` and of the pairs; a key's value comes
   * from its last pair, or from `m` when no pair has it.
   */
  lemma {:induction false} CollectIntoLastWins(m: map<string, string>, pairs: seq<(string, string)>, k: string)
    ensures k in CollectInto(m, pairs) <==> k in m || exists i :: 0 <= i < |pairs| && pairs[i].0 == k
    ensures forall i :: 0 <= i < |pairs| && pairs[i].0 == k && (forall j :: i < j < |pairs| ==> pairs[j].0 != k) ==>
              k in CollectInto(m, pairs) && CollectInto(m, pairs)[k] == pairs[i].1
    ensures k in m && (forall i :: 0 <= i < |pairs| ==> pairs[i].0 != k) ==> CollectInto(m, pairs)[k] == m[k]
    decreases |pairs|
  {
    if pairs != [] {
      var m', rest := m[pairs[0].0 := pairs[0].1], pairs[1..];
      CollectIntoLastWins(m', rest, k);
      assert forall i :: 1 <= i < |pairs| ==> pairs[i] == rest[i - 1];
      if exists i :: 0 <= i < |pairs| && pairs[i].0 == k {
        var i :| 0 <= i < |pairs| && pairs[i].0 == k;
        if i > 0 {
          assert rest[i - 1].0 == k;
        }
      }
    }
  }

  /** The history's iterator chain collected into a map. */
  function Collect(pairs: seq<(string, string)>): map<string, string> {
    CollectInto(map[], pairs)
  }

  /** Collecting the items of an option adds its pair, if any. */
  lemma CollectIntoItems(m: map<string, string>, o: Option<(string, string)>)
    ensures CollectInto(m, Items(o)) == if o.Some? then m[o.value.0 := o.value.1] else m
  {
    if o.Some? {
      assert Items(o)[1..] == [];
    }
  }

  /** The pairs the history's iterator chain yields, in order. */
  function HistoryPairs(
    from: Option<DateTime>,
    till: Option<DateTime>,
    limit: Option<DecimalText.U64>,
    render: Renderers)
    : (r: seq<(string, string)>)
    ensures forall p :: p in r ==> p.0 in {"from", "till", "limit"}
    ensures from.Some? ==> ("from", render.toRfc3339(from.value)) in r
    ensures till.Some? ==> ("till", render.toRfc3339(till.value)) in r
    ensures limit.Some? ==> ("limit", DecimalText.RenderU64(limit.value)) in r
    ensures from.None? ==> forall p :: p in r ==> p.0 != "from"
    ensures till.None? ==> forall p :: p in r ==> p.0 != "till"
    ensures limit.None? ==> forall p :: p in r ==> p.0 != "limit"
  {
    Items(from.Map(v => ("from", render.toRfc3339(v))))
    + Items(till.Map(v => ("till", render.toRfc3339(v))))
    + Items(limit.Map((v: DecimalText.U64) => ("limit", DecimalText.RenderU64(v))))
  }

  /** No key occurs twice in the history's pairs, so collecting them drops none. */
  lemma HistoryPairsDistinctKeys(
    from: Option<DateTime>,
    till: Option<DateTime>,
    limit: Option<DecimalText.U64>,
    render: Renderers)
    ensures var r := HistoryPairs(from, till, limit, render);
      forall i, j :: 0 <= i < j < |r| ==> r[i].0 != r[j].0
  {
  }

  /**
   * The history's query map: `from` and `till` as RFC 3339 timestamps and `limit` in
   * decimal, each present exactly when its filter is set, and nothing else.
   */
  function HistoryQuery(
    from: Option<DateTime>,
    till: Option<DateTime>,
    limit: Option<DecimalText.U64>,
    render: Renderers)
    : (q: map<string, string>)
    ensures q.Keys <= {"from", "till", "limit"}
    ensures "from" in q <==> from.Some?
    ensures "till" in q <==> till.Some?
    ensures "limit" in q <==> limit.Some?
    ensures from.Some? ==> q["from"] == render.toRfc3339(from.value)
    ensures till.Some? ==> q["till"] == render.toRfc3339(till.value)
    ensures limit.Some? ==> q["limit"] == DecimalText.RenderU64(limit.value)
  {
    var f := Items(from.Map(v => ("from", render.toRfc3339(v))));
    var t := Items(till.Map(v => ("till", render.toRfc3339(v))));
    var l := Items(limit.Map((v: DecimalText.U64) => ("limit", DecimalText.RenderU64(v))));
    CollectIntoAppend(map[], f + t, l);
    CollectIntoAppend(map[], f, t);
    CollectIntoItems(map[], from.Map(v => ("from", render.toRfc3339(v))));
    CollectIntoItems(Collect(f), till.Map(v => ("till", render.toRfc3339(v))));
    CollectIntoItems(Collect(f + t), limit.Map((v: DecimalText.U64) => ("limit", DecimalText.RenderU64(v))));
    assert HistoryPairs(from, till, limit, render) == f + t + l;
    Collect(HistoryPairs(from, till, limit, render))
  }

  // ---------------------------------------------------------------------------
  // Properties relating several calls

  /** Logging out right after logging in gives back the same public client. */
  lemma LogoutAfterLogin(c: Client, apiKey: string, apiSecret: string)
    ensures c.Login(apiKey, apiSecret).Logout() == c
  {
  }

  /** Logging back in with the pair just dropped restores the same authenticated client. */
  lemma LoginAfterLogout(a: AuthenticatedClient)
    ensures a.Logout().Login(a.Credentials().user, a.Credentials().password) == a
  {
  }

  /**
   * The deposit-address and transfer requests of an authenticated client obtained by
   * `Login` carry exactly the pair given to `Login`; the currency list goes out
   * anonymously, as it does from the public client. (The history request is a method;
   * its own contract attaches `Credentials()`, which `Login` fixes to the same pair.)
   */
  lemma LoginCredentialsReachFunctionRequests(
    c: Client, apiKey: string, apiSecret: string, currency: string, amount: BigDecimal,
    direction: AccountMoneyTransferDirection, render: Renderers)
    ensures c.Login(apiKey, apiSecret).GetDepositAddress(currency).auth == Some(BasicAuth(apiKey, apiSecret))
    ensures c.Login(apiKey, apiSecret).TransferAccountMoney(currency, amount, direction, render).value.auth
         == Some(BasicAuth(apiKey, apiSecret))
    ensures c.Login(apiKey, apiSecret).GetCurrencies() == c.GetCurrencies()
    ensures c.GetCurrencies().auth.None?
  {
  }

  /** The deposit-address URL determines the currency it was built for. */
  lemma DepositAddressUrlInjective(a: AuthenticatedClient, c1: string, c2: string)
    ensures a.GetDepositAddress(c1).url == a.GetDepositAddress(c2).url ==> c1 == c2
  {
    var p := |BASE| + |DEPOSIT_ADDRESS_PATH|;
    if a.GetDepositAddress(c1).url == a.GetDepositAddress(c2).url {
      assert c1 == a.GetDepositAddress(c1).url[p..];
      assert c2 == a.GetDepositAddress(c2).url[p..];
    }
  }

  /** The history query is empty exactly when no filter is set. */
  lemma HistoryQueryEmpty(
    from: Option<DateTime>, till: Option<DateTime>, limit: Option<DecimalText.U64>, render: Renderers)
    ensures HistoryQuery(from, till, limit, render) == map[] <==> from.None? && till.None? && limit.None?
  {
    var q := HistoryQuery(from, till, limit, render);
    if from.Some? {
      assert "from" in q;
    } else if till.Some? {
      assert "till" in q;
    } else if limit.Some? {
      assert "limit" in q;
    }
  }

  /** Only a limit of ten, and no time bound, gives the query `limit=10`. */
  lemma HistoryQueryLimitTen(
    from: Option<DateTime>, till: Option<DateTime>, limit: Option<DecimalText.U64>, render: Renderers)
    ensures HistoryQuery(from, till, limit, render) == map["limit" := "10"]
        <==> from.None? && till.None? && limit == Some(10)
  {
    var q := HistoryQuery(from, till, limit, render);
    assert DecimalText.RenderU64(10) == "10";
    if from.None? && till.None? && limit == Some(10) {
      assert q.Keys == {"limit"};
    }
    if q == map["limit" := "10"] {
      assert "from" !in q && "till" !in q && "limit" in q;
      DecimalText.RenderInjective(limit.value, 10);
    }
  }

  /**
   * The transfer's `type` parameter as the client sends it is the documented value
   * wrapped in double quotes, so it never equals the documented value.
   */
  lemma TransferTypeIsQuoted(
    a: AuthenticatedClient, currency: string, amount: BigDecimal,
    direction: AccountMoneyTransferDirection, render: Renderers)
    ensures a.TransferAccountMoney(currency, amount, direction, render).value.query["type"]
         == "\"" + a.TransferAccountMoneyIntended(currency, amount, direction, render).query["type"] + "\""
    ensures a.TransferAccountMoney(currency, amount, direction, render).value.query["type"]
         != a.TransferAccountMoneyIntended(currency, amount, direction, render).query["type"]
    ensures a.TransferAccountMoney(currency, amount, direction, render).value.query["type"]
         != direction.WireName()
  {
    var sent := a.TransferAccountMoney(currency, amount, direction, render).value.query["type"];
    assert |sent| == |direction.WireName()| + 2;
  }

  /** Apart from `type`, the request as written and the intended one agree. */
  lemma TransferDiffersOnlyInType(
    a: AuthenticatedClient, currency: string, amount: BigDecimal,
    direction: AccountMoneyTransferDirection, render: Renderers)
    ensures a.TransferAccountMoney(currency, amount, direction, render).value
         == a.TransferAccountMoneyIntended(currency, amount, direction, render).(query :=
              a.TransferAccountMoneyIntended(currency, amount, direction, render).query["type" :=
                "\"" + direction.WireName() + "\""])
  {
  }
}
