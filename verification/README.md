# hitbtc-rs request construction, modelled in Dafny

This project models the request-building layer of the `hitbtc-rs` crate, an asynchronous
client for the HitBTC exchange's REST API. It also models the wire names the crate's
serde attributes give its models.

Each API call is modelled as a pure function that returns the request it would hand to
`reqwest`. An `Api.HttpRequest` has four parts:

- the HTTP verb;
- the full URL, which is `BASE` followed by the endpoint's path;
- the query parameters, as a map;
- the Basic-auth pair, when one is attached.

The two clients are values:

- `Client.Login` turns a `Client` into an `AuthenticatedClient` holding the key and secret;
- `AuthenticatedClient.Logout` gives the public client back.

`get_transactions_history` builds its path by mutating a local string, so it is a method
with a loop-free body. Every other operation is a function.

The response models are covered by their serde rules:

- the variant names that `rename_all = "lowercase"` and `rename_all = "camelCase"` produce;
- the JSON keys that `rename_all = "camelCase"` and the field-level `rename = "type"` produce;
- which fields are required and which are optional, for each struct.

They are written as datatypes, with decoders from a JSON object to a `Result`.

Modules:

- `Wrappers`: `Option` and `Result`.
- `External`: the foreign types, which are opaque, and the `to_rfc3339` / `BigDecimal::to_string` renderings.
- `DecimalText`: the `Display` rendering of a `u64` and its inverse.
- `SerdeCase`: serde's rename rules.
- `Json`: the JSON value tree and the field rules.
- `Models`: `src/models.rs`.
- `Api`: `src/lib.rs`.

The model follows the code as written wherever the code and its usual description differ:

- The transfer's `type` parameter carries JSON quotes. See Findings below.
- The authenticated client's `get_currencies` resolves through `Deref` to the public
  client, so it goes out without credentials.
- The endpoint paths use two different prefixes, `/api/2/` and `/api/v2/`. Both are kept
  as written.

## Model

| member | source | states |
|---|---|---|
| Api.UrlOfIsConcatenation | src/lib.rs:46 | the URL predicate used in every request contract holds exactly when the URL is `BASE` followed by the path |
| Api.Client.Request | src/lib.rs:43-47 | a public request keeps the verb and query, its URL is `BASE` then the path, and it has no credentials |
| Api.Client.GetCurrencies | src/lib.rs:56-61 | GET to `BASE` + `/api/2/public/currency`, empty query, no credentials |
| Api.Client.Login | src/lib.rs:63-69 | the authenticated client holds exactly the pair given, and logging out returns the same public client |
| Api.AuthenticatedClient.Request | src/lib.rs:99-104 | an authenticated request keeps the verb and query, its URL is `BASE` then the path, and it carries Basic auth with the stored key and secret |
| Api.AuthenticatedClient.GetCurrencies | src/lib.rs:72-78 | through `Deref` the call is the public client's request, so it is anonymous |
| Api.AuthenticatedClient.GetDepositAddress | src/lib.rs:113-122 | POST to `BASE` + `/api/2/account/crypto/address/` + currency, empty query, with the stored credentials |
| Api.AuthenticatedClient.GetTransactionsHistory | src/lib.rs:124-145 | GET; the path is `/api/v2/account/transactions`, with `/` and the id appended exactly when an id is given; the query is `HistoryQuery` of the filters; it carries the stored credentials |
| Api.AuthenticatedClient.TransferAccountMoney | src/lib.rs:147-164 | the serialization never fails; POST to `BASE` + `/api/v2/account/transfer`; the query keys are exactly currency, amount and type; currency is passed through, amount is the decimal rendering, type is the direction's wire name in double quotes; it carries the stored credentials |
| Api.AuthenticatedClient.TransferAccountMoneyIntended | src/lib.rs:157-161 | the corrected transfer: the same request with `type` equal to the bare wire name |
| Api.Items | src/lib.rs:139-141 | an option yields one item exactly when it is `Some`, and that item is its value |
| Api.CollectInto | src/lib.rs:142 | collecting into a map never loses a key already present; which value each key ends with is stated by `CollectIntoLastWins` |
| Api.HistoryPairs | src/lib.rs:138-141 | every chained pair has key from, till or limit; each set filter contributes its rendered pair and an unset one contributes no pair with its key |
| Api.HistoryPairsDistinctKeys | src/lib.rs:138-141 | no key occurs twice in the chain, so collecting it into a map drops no pair |
| Api.CollectIntoAppend | src/lib.rs:138-142 | collecting a chain of iterators equals collecting the second part into the result of the first |
| Api.CollectIntoLastWins | src/lib.rs:142 | collecting into a map keeps exactly the keys that occur; a key's value comes from its last pair |
| Api.CollectIntoItems | src/lib.rs:139-141 | collecting an option's items inserts its pair when it is `Some` and changes nothing otherwise |
| Api.HistoryQuery | src/lib.rs:138-142 | the keys are among from, till and limit; each is present exactly when its filter is `Some`; from and till hold the RFC 3339 rendering and limit the decimal rendering |
| Api.HistoryQueryEmpty | src/lib.rs:138-142 | the history query is empty exactly when all three filters are `None` |
| Api.HistoryQueryLimitTen | src/lib.rs:141 | the query is exactly {limit ↦ "10"} if and only if from and till are `None` and limit is `Some(10)` |
| Api.AuthenticatedClient.Logout | src/lib.rs:89-91 | logging out keeps the public client and drops only the key and secret: the authenticated client is exactly that client with that pair |
| Api.LogoutAfterLogin | src/lib.rs:89-91 | logging out right after logging in returns the original public client |
| Api.LoginAfterLogout | src/lib.rs:63-69 | logging back in with the dropped pair restores the authenticated client |
| Api.LoginCredentialsReachFunctionRequests | src/lib.rs:63-122 | after login, the deposit-address and transfer requests carry exactly the login pair; the currency list is the same anonymous request as the public client's (the history method attaches `Credentials()` in its own contract) |
| Api.DepositAddressUrlInjective | src/lib.rs:119 | different currencies give different deposit-address URLs |
| Api.TransferTypeIsQuoted | src/lib.rs:160 | the `type` the client sends is the intended value wrapped in quotes, so it never equals the intended value or the wire name |
| Api.TransferDiffersOnlyInType | src/lib.rs:157-161 | the request as written and the corrected one differ only in the `type` entry |
| DecimalText.RenderU64 | src/lib.rs:141 | the rendering of a number is a canonical digit string: non-empty, all digits, no leading zero |
| DecimalText.ParseDecimal | src/lib.rs:141 | the inverse reader accepts exactly the non-empty digit strings |
| DecimalText.DigitsValueOfRender | src/lib.rs:141 | the digits of a rendering denote the number rendered |
| DecimalText.ParseRender | src/lib.rs:141 | parsing a rendering gives the number back |
| DecimalText.RenderInjective | src/lib.rs:141 | different numbers render differently |
| DecimalText.RenderStep | src/lib.rs:141 | a number of two or more digits renders as the rendering of all but its last digit, followed by that digit |
| DecimalText.RenderParse | src/lib.rs:141 | every canonical digit string is the rendering of the number it denotes |
| SerdeCase.AsciiLower | src/models.rs:32 | an upper-case ASCII letter becomes its lower-case counterpart (code point plus 32), and every other character is kept |
| SerdeCase.AsciiUpper | src/models.rs:9 | a lower-case ASCII letter becomes its upper-case counterpart (code point minus 32), and every other character is kept |
| SerdeCase.LowercaseVariant | src/models.rs:32 | the lowercase rule keeps the length and lowers every character, position by position, leaving no upper-case letter |
| SerdeCase.CamelCaseVariant | src/models.rs:70 | the camelCase rule for variants keeps the length, lowers the first character, and keeps the rest |
| SerdeCase.LowercaseOfCamelCase | src/models.rs:32 | lowercasing a camelCase variant name gives its lowercase name: the two rules differ only in case |
| SerdeCase.PascalFrom | src/models.rs:9 | the PascalCase step never lengthens a name |
| SerdeCase.PascalDropsUnderscores | src/models.rs:9 | the PascalCase step removes every underscore |
| SerdeCase.CamelCaseField | src/models.rs:9 | a camelCase field key contains no underscore |
| SerdeCase.PascalAppend | src/models.rs:9 | PascalCase of a concatenation is the PascalCase of each part, with the word-start flag carried across |
| SerdeCase.PascalJoin | src/models.rs:9 | PascalCase of `a_b` is PascalCase of `a` followed by PascalCase of `b` |
| SerdeCase.CamelCaseJoin | src/models.rs:9 | camelCase of `a_b` is camelCase of `a` followed by PascalCase of `b` |
| SerdeCase.CamelCaseVariantAppend | src/models.rs:9 | lowering the first character of a concatenation touches only the first part |
| SerdeCase.PascalWord | src/models.rs:9 | within one word, PascalCase changes at most the first character |
| SerdeCase.PascalOfSnake | src/models.rs:9 | PascalCase of a snake_case identifier is its words capitalized and concatenated |
| SerdeCase.CamelCaseOfSnake | src/models.rs:9 | camelCase of a snake_case identifier keeps its first word and capitalizes each later one |
| SerdeCase.CamelCaseKey | src/models.rs:9 | the camelCase key of a concrete identifier, read off its words |
| SerdeCase.CamelCaseOneWord | src/models.rs:9 | a one-word lower-case identifier is its own key |
| Wrappers.Option.Map | src/lib.rs:139-141 | `Option::map` is `Some` exactly when its input is, and holds the image of the value |
| Json.AsString | src/models.rs:11 | a `String` field decodes exactly from a JSON string, to its text |
| Json.AsBool | src/models.rs:13 | a `bool` field decodes exactly from a JSON boolean, to its value |
| Json.AsU64 | src/models.rs:16 | a `u64` field decodes exactly from a JSON integer in [0, 2^64), to its value |
| Json.Required | src/models.rs:10-22 | a required field succeeds exactly when the key is present and its value decodes; a missing key gives `MissingField` |
| Json.Optional | src/models.rs:28 | an `Option` field succeeds exactly when the key is absent, null, or decodes; absent or null gives `None` |
| Json.UnitVariantName | src/models.rs:31-48 | a unit variant is read from a JSON string or from an object whose single key maps to `null`, and from nothing else; the name read is that string or key |
| Models.StatusFromJson | src/models.rs:31-37 | a status decodes exactly from the string form or the single-key object form of its own wire name |
| Models.TypeFromJson | src/models.rs:39-48 | a transaction type decodes exactly from the string form or the single-key object form of its own wire name |
| Models.ParseTransactionStatus | src/models.rs:31-37 | decoding succeeds only on a status's own wire name; on any other string it fails rather than defaulting |
| Models.TransactionStatusWireNames | src/models.rs:31-37 | each status's wire name is its identifier lowercased (`pending`, `failed`, `success`); decoding it gives the status back; the names are distinct |
| Models.ParseTransactionType | src/models.rs:39-48 | decoding succeeds only on a type's own wire name; on any other string it fails |
| Models.TransactionTypeWireNames | src/models.rs:39-48 | each type's wire name is its whole identifier lowercased (`banktoexchange`, …); decoding it gives the type back; the names are distinct |
| Models.AccountMoneyTransferDirection.ToJsonString | src/lib.rs:160 | serializing a direction never fails and gives its wire name in double quotes |
| Models.DirectionWireNames | src/models.rs:69-74 | a direction's wire name is its identifier with the first letter lowered (`bankToExchange`), unlike the lowercase `TransactionType` name |
| Models.CurrencyInfoField.WireKey | src/models.rs:10-22 | every `CurrencyInfo` field is read from one of the eleven keys the decoder reads |
| Models.DecodeCurrencyInfo | src/models.rs:8-22 | decoding succeeds exactly when all eleven camelCase keys are present and decode, and each field holds its key's decoded value |
| Models.CurrencyInfoKeysAreCamelCase | src/models.rs:9-21 | each field's key is the camelCase rename of its identifier (`full_name` → `fullName`, `payout_is_payment_id` → `payoutIsPaymentId`, …) |
| Models.CurrencyInfoRequiresKey | src/models.rs:10-22 | an object missing any one of the eleven keys does not decode |
| Models.CurrencyInfoRequiresEveryField | src/models.rs:8-22 | no field is optional: lacking the camelCase key of any field makes decoding fail |
| Models.DecodeDepositAddressInfo | src/models.rs:24-29 | decoding succeeds exactly when `address` decodes and `paymentId` is absent, null or a string; a missing `address` is a `MissingField` error |
| Models.DepositAddressKeysAreCamelCase | src/models.rs:25-28 | the keys are the camelCase renames `address` and `paymentId` |
| Models.DepositAddressWithoutPaymentId | src/models.rs:28 | an address with `paymentId` absent or null decodes to that address with no payment id |
| Models.DepositAddressIgnoresOtherKeys | src/models.rs:24-29 | keys other than `address` and `paymentId` do not affect decoding |
| Models.TransactionField.WireKey | src/models.rs:50-67 | `paymentId` is the key of the one optional field, and every other field's key is required |
| Models.DecodeTransaction | src/models.rs:50-67 | decoding succeeds exactly when every required key decodes and `paymentId` is absent, null or a string; each field holds its key's decoded value, `transaction_type` from `type` |
| Models.TransactionKeysAreCamelCase | src/models.rs:63-64 | every field's key is the camelCase rename of its identifier (`network_fee` → `networkFee`, `created_at` → `createdAt`), except `transaction_type`, whose key is `type` instead of `transactionType` |
| Models.TransactionTypeKey | src/models.rs:63-64 | `transaction_type` would be `transactionType` under camelCase but is read from `type` |
| Models.TransactionRequiresKey | src/models.rs:50-67 | an object missing any one required key does not decode |
| Models.TransactionRequiredFields | src/models.rs:50-67 | every field except `payment_id` is required |
| Models.TransactionPaymentIdOptional | src/models.rs:60 | removing `paymentId` from a decodable object still decodes, to the same transaction with no payment id |

## Left out

- Sending the request and reading the reply are network I/O and async. This covers `send`, `.compat().await`, `.json()` decoding of the body, and the `Fallible` errors they raise.
- JSON text is not parsed. Decoding starts from a JSON object already split into keys and values. Numbers are integers only. The positional (array) form serde also accepts for structs is not modelled.
- The Basic-auth header is kept as the raw key and secret, without its base64 encoding. The query is kept as a map, without percent-encoding and without `HashMap` iteration order. `reqwest`'s URL parsing is not modelled.
- `DateTime::to_rfc3339` and `BigDecimal::to_string` are caller-supplied functions (`External.Renderers`). The decoding of `BigDecimal`, `DateTime<Utc>` and `Uuid` values is caller-supplied too (`Models.LeafDecoders`).
- `Client::new` builds a `reqwest` client, which is opaque here. A `Client` is a value around an opaque `HttpClient` handle, and `Clone` and `Debug` are not modelled.
- The response types (`Vec<CurrencyInfo>`, `DepositAddressInfo`, `Vec<Transaction>`, `Uuid`) are not attached to the request descriptors. The struct decoders stand alone, and decoding a JSON array of them is not modelled.
- When several fields fail, serde reports them in an order the model does not fix. The decoders report the first failing field in declaration order.
- A key repeated in the JSON text cannot be expressed, because decoding starts from a map.

## Findings

| source | as written | input that shows it | evidently intended | confidence | as-written member | corrected member |
|---|---|---|---|---|---|---|
| src/lib.rs:160 | the transfer's `type` query value is `serde_json::to_string(&direction)`, a JSON string literal that includes double quotes | `transfer_account_money("BTC", 1, BankToExchange)` sends `type="bankToExchange"`, quotes included, where the API expects `bankToExchange` | the bare camelCase wire name `bankToExchange` / `exchangeToBank` | medium, not executed | Api.TransferTypeIsQuoted | Api.AuthenticatedClient.TransferAccountMoneyIntended |
