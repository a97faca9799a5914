/**
 * The response and request models of the exchange API and the wire names serde gives
 * them. Enums decoded from responses (`TransactionStatus`, `TransactionType`) get a
 * total `WireName` and a partial `Parse...` that accepts exactly the wire names; the
 * request-only enum (`AccountMoneyTransferDirection`) gets a total encoder. Structs are
 * decoded from a JSON object by the field names and optionality rules serde derives.
 */
module Models {
  import opened Wrappers
  import opened External
  import opened Json
  import DecimalText
  import SerdeCase

  // ---------------------------------------------------------------------------
  // TransactionStatus: #[serde(rename_all = "lowercase")]

  datatype TransactionStatus = Pending | Failed | Success {
    /** The variant's Rust identifier. */
    function Ident(): string {
      match this
      case Pending => "Pending"
      case Failed => "Failed"
      case Success => "Success"
    }

    function WireName(): string {
      match this
      case Pending => "pending"
      case Failed => "failed"
      case Success => "success"
    }
  }

  /** Deserializing a status from its wire name; there is no catch-all variant. */
  function ParseTransactionStatus(name: string): (r: Option<TransactionStatus>)
    ensures r.Some? ==> r.value.WireName() == name
    ensures r.None? ==> forall s: TransactionStatus :: s.WireName() != name
  {
    if name == "pending" then Some(Pending)
    else if name == "failed" then Some(Failed)
    else if name == "success" then Some(Success)
    else None
  }

  /** Each status's wire name is its identifier lowercased, and names the status alone. */
  lemma TransactionStatusWireNames(s: TransactionStatus, t: TransactionStatus)
    ensures s.WireName() == SerdeCase.LowercaseVariant(s.Ident())
    ensures ParseTransactionStatus(s.WireName()) == Some(s)
    ensures s.WireName() == t.WireName() ==> s == t
  {
    match s
    case Pending =>
    case Failed =>
    case Success =>
  }

  // ---------------------------------------------------------------------------
  // TransactionType: #[serde(rename_all = "lowercase")]

  datatype TransactionType = Payout | Payin | Deposit | Withdraw | BankToExchange | ExchangeToBank {
    function Ident(): string {
      match this
      case Payout => "Payout"
      case Payin => "Payin"
      case Deposit => "Deposit"
      case Withdraw => "Withdraw"
      case BankToExchange => "BankToExchange"
      case ExchangeToBank => "ExchangeToBank"
    }

    function WireName(): string {
      match this
      case Payout => "payout"
      case Payin => "payin"
      case Deposit => "deposit"
      case Withdraw => "withdraw"
      case BankToExchange => "banktoexchange"
      case ExchangeToBank => "exchangetobank"
    }
  }

  /** Deserializing a transaction type from its wire name; there is no catch-all variant. */
  function ParseTransactionType(name: string): (r: Option<TransactionType>)
    ensures r.Some? ==> r.value.WireName() == name
    ensures r.None? ==> forall t: TransactionType :: t.WireName() != name
  {
    if name == "payout" then Some(Payout)
    else if name == "payin" then Some(Payin)
    else if name == "deposit" then Some(Deposit)
    else if name == "withdraw" then Some(Withdraw)
    else if name == "banktoexchange" then Some(TransactionType.BankToExchange)
    else if name == "exchangetobank" then Some(TransactionType.ExchangeToBank)
    else None
  }

  /** Each type's wire name is its whole identifier lowercased, and names the type alone. */
  lemma TransactionTypeWireNames(s: TransactionType, t: TransactionType)
    ensures s.WireName() == SerdeCase.LowercaseVariant(s.Ident())
    ensures ParseTransactionType(s.WireName()) == Some(s)
    ensures s.WireName() == t.WireName() ==> s == t
  {
    match s
    case Payout =>
    case Payin =>
    case Deposit =>
    case Withdraw =>
    case BankToExchange => BankToExchangeLowercase();
    case ExchangeToBank => ExchangeToBankLowercase();
  }

  // The two longest identifiers are lowercased in lemmas of their own, which keeps
  // each literal evaluation small.

  lemma BankToExchangeLowercase()
    ensures SerdeCase.LowercaseVariant("BankToExchange") == "banktoexchange"
  {
  }

  lemma ExchangeToBankLowercase()
    ensures SerdeCase.LowercaseVariant("ExchangeToBank") == "exchangetobank"
  {
  }

  // ---------------------------------------------------------------------------
  // AccountMoneyTransferDirection: #[serde(rename_all = "camelCase")], Serialize only

  datatype SerializeError = SerializeError(message: string)

  datatype AccountMoneyTransferDirection = BankToExchange | ExchangeToBank {
    function Ident(): string {
      match this
      case BankToExchange => "BankToExchange"
      case ExchangeToBank => "ExchangeToBank"
    }

    function WireName(): string {
      match this
      case BankToExchange => "bankToExchange"
      case ExchangeToBank => "exchangeToBank"
    }

    /**
     * `serde_json::to_string` of the direction: a unit variant becomes a JSON string
     * literal, so the wire name comes back wrapped in double quotes. The wire names
     * hold no character that JSON escapes.
     */
    function ToJsonString(): (r: Result<string, SerializeError>)
      ensures r.Ok?
      ensures |r.value| == |WireName()| + 2
      ensures r.value[0] == '"' && r.value[|r.value| - 1] == '"'
      ensures r.value[1..|r.value| - 1] == WireName()
    {
      Ok("\"" + WireName() + "\"")
    }
  }

  /**
   * A direction's wire name is its identifier with the first letter lowered, which is
   * not the all-lowercase name the same transfer has as a `TransactionType`.
   */
  lemma DirectionWireNames(d: AccountMoneyTransferDirection)
    ensures d.WireName() == SerdeCase.CamelCaseVariant(d.Ident())
    ensures d.BankToExchange? ==> d.WireName() != TransactionType.BankToExchange.WireName()
    ensures d.ExchangeToBank? ==> d.WireName() != TransactionType.ExchangeToBank.WireName()
  {
    match d
    case BankToExchange => BankToExchangeCamelCase(d.Ident());
    case ExchangeToBank => ExchangeToBankCamelCase(d.Ident());
  }

  lemma BankToExchangeCamelCase(ident: string)
    requires ident == "BankToExchange"
    ensures SerdeCase.CamelCaseVariant(ident) == "bankToExchange"
    ensures "bankToExchange" != "banktoexchange"
  {
    assert ident[0] == 'B' && ident[1..] == "ankToExchange";
    assert ['b'] + "ankToExchange" == "bankToExchange";
    assert "bankToExchange"[4] != "banktoexchange"[4];
  }

  lemma ExchangeToBankCamelCase(ident: string)
    requires ident == "ExchangeToBank"
    ensures SerdeCase.CamelCaseVariant(ident) == "exchangeToBank"
    ensures "exchangeToBank" != "exchangetobank"
  {
    assert ident[0] == 'E' && ident[1..] == "xchangeToBank";
    assert ['e'] + "xchangeToBank" == "exchangeToBank";
    assert "exchangeToBank"[8] != "exchangetobank"[8];
  }

  // ---------------------------------------------------------------------------
  // Foreign leaf decoders

  /** How the JSON value of a `BigDecimal`, `DateTime<Utc>` and `Uuid` field decodes. */
  datatype LeafDecoders = LeafDecoders(
    decimal: Value -> Option<BigDecimal>,
    dateTime: Value -> Option<DateTime>,
    uuid: Value -> Option<Uuid>)

  /**
   * A status field decodes exactly from the externally tagged form of one status: its
   * wire name as a JSON string, or an object whose single key is the wire name and
   * whose value is `null`.
   */
  function StatusFromJson(v: Value): (r: Option<TransactionStatus>)
    ensures r.Some? ==> EncodesUnitVariant(v, r.value.WireName())
    ensures forall s: TransactionStatus :: EncodesUnitVariant(v, s.WireName()) ==> r == Some(s)
  {
    match UnitVariantName(v)
    case None => None
    case Some(name) => ParseTransactionStatus(name)
  }

  /** A type field decodes exactly from the externally tagged form of one transaction type. */
  function TypeFromJson(v: Value): (r: Option<TransactionType>)
    ensures r.Some? ==> EncodesUnitVariant(v, r.value.WireName())
    ensures forall t: TransactionType :: EncodesUnitVariant(v, t.WireName()) ==> r == Some(t)
  {
    match UnitVariantName(v)
    case None => None
    case Some(name) => ParseTransactionType(name)
  }

  // ---------------------------------------------------------------------------
  // CurrencyInfo: #[serde(rename_all = "camelCase")], every field required

  datatype CurrencyInfo = CurrencyInfo(
    id: string,
    fullName: string,
    crypto: bool,
    payinEnabled: bool,
    payinPaymentId: bool,
    payinConfirmations: DecimalText.U64,
    payoutEnabled: bool,
    payoutIsPaymentId: bool,
    payoutFee: BigDecimal,
    transferEnabled: bool,
    delisted: bool)

  /** The keys `DecodeCurrencyInfo` reads. */
  const CURRENCY_INFO_KEYS: set<string> := {
    "id", "fullName", "crypto", "payinEnabled", "payinPaymentId", "payinConfirmations",
    "payoutEnabled", "payoutIsPaymentId", "payoutFee", "transferEnabled", "delisted"}

  /** The fields of `CurrencyInfo`, in declaration order. */
  datatype CurrencyInfoField =
    | CiId | CiFullName | CiCrypto | CiPayinEnabled | CiPayinPaymentId | CiPayinConfirmations
    | CiPayoutEnabled | CiPayoutIsPaymentId | CiPayoutFee | CiTransferEnabled | CiDelisted
  {
    /** The field's Rust identifier. */
    function Ident(): string {
      match this
      case CiId => "id"
      case CiFullName => "full_name"
      case CiCrypto => "crypto"
      case CiPayinEnabled => "payin_enabled"
      case CiPayinPaymentId => "payin_payment_id"
      case CiPayinConfirmations => "payin_confirmations"
      case CiPayoutEnabled => "payout_enabled"
      case CiPayoutIsPaymentId => "payout_is_payment_id"
      case CiPayoutFee => "payout_fee"
      case CiTransferEnabled => "transfer_enabled"
      case CiDelisted => "delisted"
    }

    /** The JSON key the decoder reads the field from; the decoder reads no other. */
    function WireKey(): (k: string)
      ensures k in CURRENCY_INFO_KEYS
    {
      match this
      case CiId => "id"
      case CiFullName => "fullName"
      case CiCrypto => "crypto"
      case CiPayinEnabled => "payinEnabled"
      case CiPayinPaymentId => "payinPaymentId"
      case CiPayinConfirmations => "payinConfirmations"
      case CiPayoutEnabled => "payoutEnabled"
      case CiPayoutIsPaymentId => "payoutIsPaymentId"
      case CiPayoutFee => "payoutFee"
      case CiTransferEnabled => "transferEnabled"
      case CiDelisted => "delisted"
    }
  }

  function DecodeCurrencyInfo(obj: map<string, Value>, leaves: LeafDecoders): (r: Result<CurrencyInfo, DecodeError>)
    ensures r.Ok? <==>
      && Has(obj, "id", AsString) && Has(obj, "fullName", AsString) && Has(obj, "crypto", AsBool)
      && Has(obj, "payinEnabled", AsBool) && Has(obj, "payinPaymentId", AsBool)
      && Has(obj, "payinConfirmations", AsU64) && Has(obj, "payoutEnabled", AsBool)
      && Has(obj, "payoutIsPaymentId", AsBool) && Has(obj, "payoutFee", leaves.decimal)
      && Has(obj, "transferEnabled", AsBool) && Has(obj, "delisted", AsBool)
    ensures r.Ok? ==>
      && r.value.id == Get(obj, "id", AsString)
      && r.value.fullName == Get(obj, "fullName", AsString)
      && r.value.crypto == Get(obj, "crypto", AsBool)
      && r.value.payinEnabled == Get(obj, "payinEnabled", AsBool)
      && r.value.payinPaymentId == Get(obj, "payinPaymentId", AsBool)
      && r.value.payinConfirmations == Get(obj, "payinConfirmations", AsU64)
      && r.value.payoutEnabled == Get(obj, "payoutEnabled", AsBool)
      && r.value.payoutIsPaymentId == Get(obj, "payoutIsPaymentId", AsBool)
      && r.value.payoutFee == Get(obj, "payoutFee", leaves.decimal)
      && r.value.transferEnabled == Get(obj, "transferEnabled", AsBool)
      && r.value.delisted == Get(obj, "delisted", AsBool)
  {
    var id :- Required(obj, "id", AsString);
    var fullName :- Required(obj, "fullName", AsString);
    var crypto :- Required(obj, "crypto", AsBool);
    var payinEnabled :- Required(obj, "payinEnabled", AsBool);
    var payinPaymentId :- Required(obj, "payinPaymentId", AsBool);
    var payinConfirmations :- Required(obj, "payinConfirmations", AsU64);
    var payoutEnabled :- Required(obj, "payoutEnabled", AsBool);
    var payoutIsPaymentId :- Required(obj, "payoutIsPaymentId", AsBool);
    var payoutFee :- Required(obj, "payoutFee", leaves.decimal);
    var transferEnabled :- Required(obj, "transferEnabled", AsBool);
    var delisted :- Required(obj, "delisted", AsBool);
    Ok(CurrencyInfo(id, fullName, crypto, payinEnabled, payinPaymentId, payinConfirmations,
                    payoutEnabled, payoutIsPaymentId, payoutFee, transferEnabled, delisted))
  }

  // The camelCase key of each multi-word identifier, one identifier per lemma:
  // evaluating the rename on a concrete name is the costly step.

  lemma FullNameKey(ident: string) requires ident == "full_name"
    ensures SerdeCase.CamelCaseField(ident) == "fullName"
  {
    SerdeCase.CamelCaseKey(["full", "name"], ident, "fullName");
  }

  lemma PayinEnabledKey(ident: string) requires ident == "payin_enabled"
    ensures SerdeCase.CamelCaseField(ident) == "payinEnabled"
  {
    SerdeCase.CamelCaseKey(["payin", "enabled"], ident, "payinEnabled");
  }

  lemma PayinPaymentIdKey(ident: string) requires ident == "payin_payment_id"
    ensures SerdeCase.CamelCaseField(ident) == "payinPaymentId"
  {
    SerdeCase.CamelCaseKey(["payin", "payment", "id"], ident, "payinPaymentId");
  }

  lemma PayinConfirmationsKey(ident: string) requires ident == "payin_confirmations"
    ensures SerdeCase.CamelCaseField(ident) == "payinConfirmations"
  {
    SerdeCase.CamelCaseKey(["payin", "confirmations"], ident, "payinConfirmations");
  }

  lemma PayoutEnabledKey(ident: string) requires ident == "payout_enabled"
    ensures SerdeCase.CamelCaseField(ident) == "payoutEnabled"
  {
    SerdeCase.CamelCaseKey(["payout", "enabled"], ident, "payoutEnabled");
  }

  lemma PayoutIsPaymentIdKey(ident: string) requires ident == "payout_is_payment_id"
    ensures SerdeCase.CamelCaseField(ident) == "payoutIsPaymentId"
  {
    SerdeCase.CamelCaseKey(["payout", "is", "payment", "id"], ident, "payoutIsPaymentId");
  }

  lemma PayoutFeeKey(ident: string) requires ident == "payout_fee"
    ensures SerdeCase.CamelCaseField(ident) == "payoutFee"
  {
    SerdeCase.CamelCaseKey(["payout", "fee"], ident, "payoutFee");
  }

  lemma TransferEnabledKey(ident: string) requires ident == "transfer_enabled"
    ensures SerdeCase.CamelCaseField(ident) == "transferEnabled"
  {
    SerdeCase.CamelCaseKey(["transfer", "enabled"], ident, "transferEnabled");
  }

  /** Each field is read from the camelCase rename of its identifier. */
  lemma CurrencyInfoKeysAreCamelCase(field: CurrencyInfoField)
    ensures SerdeCase.CamelCaseField(field.Ident()) == field.WireKey()
  {
    var ident := field.Ident();
    match field
    case CiId => SerdeCase.CamelCaseOneWord(ident);
    case CiFullName => FullNameKey(ident);
    case CiCrypto => SerdeCase.CamelCaseOneWord(ident);
    case CiPayinEnabled => PayinEnabledKey(ident);
    case CiPayinPaymentId => PayinPaymentIdKey(ident);
    case CiPayinConfirmations => PayinConfirmationsKey(ident);
    case CiPayoutEnabled => PayoutEnabledKey(ident);
    case CiPayoutIsPaymentId => PayoutIsPaymentIdKey(ident);
    case CiPayoutFee => PayoutFeeKey(ident);
    case CiTransferEnabled => TransferEnabledKey(ident);
    case CiDelisted => SerdeCase.CamelCaseOneWord(ident);
  }

  /** An object that lacks any one of the keys does not decode. */
  lemma CurrencyInfoRequiresKey(obj: map<string, Value>, leaves: LeafDecoders, key: string)
    requires key in CURRENCY_INFO_KEYS && key !in obj
    ensures DecodeCurrencyInfo(obj, leaves).Err?
  {
  }

  /**
   * No field of `CurrencyInfo` is optional: an object that lacks the camelCase key of
   * any one field does not decode.
   */
  lemma CurrencyInfoRequiresEveryField(obj: map<string, Value>, leaves: LeafDecoders, field: CurrencyInfoField)
    requires SerdeCase.CamelCaseField(field.Ident()) !in obj
    ensures DecodeCurrencyInfo(obj, leaves).Err?
  {
    CurrencyInfoKeysAreCamelCase(field);
    CurrencyInfoRequiresKey(obj, leaves, field.WireKey());
  }

  // ---------------------------------------------------------------------------
  // DepositAddressInfo: #[serde(rename_all = "camelCase")], `payment_id` optional

  datatype DepositAddressInfo = DepositAddressInfo(address: string, paymentId: Option<string>)

  function DecodeDepositAddressInfo(obj: map<string, Value>): (r: Result<DepositAddressInfo, DecodeError>)
    ensures r.Ok? <==> Has(obj, "address", AsString) && MayHave(obj, "paymentId", AsString)
    ensures r.Ok? ==>
      && r.value.address == Get(obj, "address", AsString)
      && r.value.paymentId == GetOptional(obj, "paymentId", AsString)
    ensures "address" !in obj ==> r == Err(MissingField("address"))
  {
    var address :- Required(obj, "address", AsString);
    var paymentId :- Optional(obj, "paymentId", AsString);
    Ok(DepositAddressInfo(address, paymentId))
  }

  lemma PaymentIdKey(ident: string) requires ident == "payment_id"
    ensures SerdeCase.CamelCaseField(ident) == "paymentId"
  {
    SerdeCase.CamelCaseKey(["payment", "id"], ident, "paymentId");
  }

  /** The two keys the decoder reads are the camelCase renames of the field identifiers. */
  lemma DepositAddressKeysAreCamelCase()
    ensures SerdeCase.CamelCaseField("address") == "address"
    ensures SerdeCase.CamelCaseField("payment_id") == "paymentId"
  {
    SerdeCase.CamelCaseOneWord("address");
    PaymentIdKey("payment_id");
  }

  /**
   * An address alone decodes, with no payment id, whether the `paymentId` key is
   * absent or `null`; keys the struct does not name are ignored.
   */
  lemma DepositAddressWithoutPaymentId(obj: map<string, Value>, address: string)
    requires "address" in obj && obj["address"] == String(address)
    requires "paymentId" !in obj || obj["paymentId"] == Null
    ensures DecodeDepositAddressInfo(obj) == Ok(DepositAddressInfo(address, None))
  {
  }

  /** Decoding reads only the keys `address` and `paymentId`. */
  lemma DepositAddressIgnoresOtherKeys(obj: map<string, Value>, key: string, v: Value)
    requires key != "address" && key != "paymentId"
    ensures DecodeDepositAddressInfo(obj[key := v]) == DecodeDepositAddressInfo(obj)
  {
    var obj' := obj[key := v];
    assert Has(obj', "address", AsString) == Has(obj, "address", AsString);
    assert MayHave(obj', "paymentId", AsString) == MayHave(obj, "paymentId", AsString);
  }


  // ---------------------------------------------------------------------------
  // Transaction: #[serde(rename_all = "camelCase")], `transaction_type` renamed to
  // "type", `payment_id` optional

  datatype Transaction = Transaction(
    id: Uuid,
    index: DecimalText.U64,
    currency: string,
    amount: BigDecimal,
    fee: BigDecimal,
    networkFee: BigDecimal,
    address: string,
    paymentId: Option<string>,
    hash: string,
    status: TransactionStatus,
    transactionType: TransactionType,
    createdAt: DateTime,
    updatedAt: DateTime)

  /** The keys of the required fields of `Transaction`. */
  const TRANSACTION_REQUIRED_KEYS: set<string> := {
    "id", "index", "currency", "amount", "fee", "networkFee", "address", "hash",
    "status", "type", "createdAt", "updatedAt"}

  /** The fields of `Transaction`, in declaration order. */
  datatype TransactionField =
    | TxId | TxIndex | TxCurrency | TxAmount | TxFee | TxNetworkFee | TxAddress | TxPaymentId
    | TxHash | TxStatus | TxTransactionType | TxCreatedAt | TxUpdatedAt
  {
    /** The field's Rust identifier. */
    function Ident(): string {
      match this
      case TxId => "id"
      case TxIndex => "index"
      case TxCurrency => "currency"
      case TxAmount => "amount"
      case TxFee => "fee"
      case TxNetworkFee => "network_fee"
      case TxAddress => "address"
      case TxPaymentId => "payment_id"
      case TxHash => "hash"
      case TxStatus => "status"
      case TxTransactionType => "transaction_type"
      case TxCreatedAt => "created_at"
      case TxUpdatedAt => "updated_at"
    }

    /**
     * The JSON key the decoder reads the field from: `paymentId` for the one optional
     * field, a required key for every other.
     */
    function WireKey(): (k: string)
      ensures TxPaymentId? <==> k == "paymentId"
      ensures !TxPaymentId? ==> k in TRANSACTION_REQUIRED_KEYS
    {
      match this
      case TxId => "id"
      case TxIndex => "index"
      case TxCurrency => "currency"
      case TxAmount => "amount"
      case TxFee => "fee"
      case TxNetworkFee => "networkFee"
      case TxAddress => "address"
      case TxPaymentId => "paymentId"
      case TxHash => "hash"
      case TxStatus => "status"
      case TxTransactionType => "type"
      case TxCreatedAt => "createdAt"
      case TxUpdatedAt => "updatedAt"
    }
  }

  /**
   * The key a `Transaction` field is read from by the attributes: an explicit
   * `rename` on the field takes precedence over the struct's `rename_all`.
   */
  function TransactionKey(ident: string): string {
    if ident == "transaction_type" then "type" else SerdeCase.CamelCaseField(ident)
  }

  function DecodeTransaction(obj: map<string, Value>, leaves: LeafDecoders): (r: Result<Transaction, DecodeError>)
    ensures r.Ok? <==>
      && Has(obj, "id", leaves.uuid) && Has(obj, "index", AsU64) && Has(obj, "currency", AsString)
      && Has(obj, "amount", leaves.decimal) && Has(obj, "fee", leaves.decimal)
      && Has(obj, "networkFee", leaves.decimal) && Has(obj, "address", AsString)
      && MayHave(obj, "paymentId", AsString) && Has(obj, "hash", AsString)
      && Has(obj, "status", StatusFromJson) && Has(obj, "type", TypeFromJson)
      && Has(obj, "createdAt", leaves.dateTime) && Has(obj, "updatedAt", leaves.dateTime)
    ensures r.Ok? ==>
      && r.value.id == Get(obj, "id", leaves.uuid)
      && r.value.index == Get(obj, "index", AsU64)
      && r.value.currency == Get(obj, "currency", AsString)
      && r.value.amount == Get(obj, "amount", leaves.decimal)
      && r.value.fee == Get(obj, "fee", leaves.decimal)
      && r.value.networkFee == Get(obj, "networkFee", leaves.decimal)
      && r.value.address == Get(obj, "address", AsString)
      && r.value.paymentId == GetOptional(obj, "paymentId", AsString)
      && r.value.hash == Get(obj, "hash", AsString)
      && r.value.status == Get(obj, "status", StatusFromJson)
      && r.value.transactionType == Get(obj, "type", TypeFromJson)
      && r.value.createdAt == Get(obj, "createdAt", leaves.dateTime)
      && r.value.updatedAt == Get(obj, "updatedAt", leaves.dateTime)
  {
    var id :- Required(obj, "id", leaves.uuid);
    var index :- Required(obj, "index", AsU64);
    var currency :- Required(obj, "currency", AsString);
    var amount :- Required(obj, "amount", leaves.decimal);
    var fee :- Required(obj, "fee", leaves.decimal);
    var networkFee :- Required(obj, "networkFee", leaves.decimal);
    var address :- Required(obj, "address", AsString);
    var paymentId :- Optional(obj, "paymentId", AsString);
    var hash :- Required(obj, "hash", AsString);
    var status :- Required(obj, "status", StatusFromJson);
    var transactionType :- Required(obj, "type", TypeFromJson);
    var createdAt :- Required(obj, "createdAt", leaves.dateTime);
    var updatedAt :- Required(obj, "updatedAt", leaves.dateTime);
    Ok(Transaction(id, index, currency, amount, fee, networkFee, address, paymentId,
                   hash, status, transactionType, createdAt, updatedAt))
  }

  lemma NetworkFeeKey(ident: string) requires ident == "network_fee"
    ensures SerdeCase.CamelCaseField(ident) == "networkFee"
  {
    SerdeCase.CamelCaseKey(["network", "fee"], ident, "networkFee");
  }

  lemma CreatedAtKey(ident: string) requires ident == "created_at"
    ensures SerdeCase.CamelCaseField(ident) == "createdAt"
  {
    SerdeCase.CamelCaseKey(["created", "at"], ident, "createdAt");
  }

  lemma UpdatedAtKey(ident: string) requires ident == "updated_at"
    ensures SerdeCase.CamelCaseField(ident) == "updatedAt"
  {
    SerdeCase.CamelCaseKey(["updated", "at"], ident, "updatedAt");
  }

  /**
   * Each field is read from the camelCase rename of its identifier, except
   * `transaction_type`, whose own rename replaces the `transactionType` key it
   * would otherwise get.
   */
  lemma TransactionKeysAreCamelCase(field: TransactionField)
    ensures TransactionKey(field.Ident()) == field.WireKey()
    ensures field.TxTransactionType? <==> field.WireKey() != SerdeCase.CamelCaseField(field.Ident())
  {
    var ident := field.Ident();
    match field
    case TxId => SerdeCase.CamelCaseOneWord(ident);
    case TxIndex => SerdeCase.CamelCaseOneWord(ident);
    case TxCurrency => SerdeCase.CamelCaseOneWord(ident);
    case TxAmount => SerdeCase.CamelCaseOneWord(ident);
    case TxFee => SerdeCase.CamelCaseOneWord(ident);
    case TxNetworkFee => NetworkFeeKey(ident);
    case TxAddress => SerdeCase.CamelCaseOneWord(ident);
    case TxPaymentId => PaymentIdKey(ident);
    case TxHash => SerdeCase.CamelCaseOneWord(ident);
    case TxStatus => SerdeCase.CamelCaseOneWord(ident);
    case TxTransactionType => TransactionTypeKey(ident);
    case TxCreatedAt => CreatedAtKey(ident);
    case TxUpdatedAt => UpdatedAtKey(ident);
  }

  lemma TransactionTypeKey(ident: string) requires ident == "transaction_type"
    ensures SerdeCase.CamelCaseField(ident) == "transactionType"
    ensures TransactionKey(ident) == "type"
  {
    SerdeCase.CamelCaseKey(["transaction", "type"], ident, "transactionType");
  }

  /** An object that lacks any one required key does not decode. */
  lemma TransactionRequiresKey(obj: map<string, Value>, leaves: LeafDecoders, key: string)
    requires key in TRANSACTION_REQUIRED_KEYS && key !in obj
    ensures DecodeTransaction(obj, leaves).Err?
  {
  }

  /**
   * Every field of `Transaction` but `payment_id` is required: an object that lacks
   * the key of any one of them does not decode.
   */
  lemma TransactionRequiredFields(obj: map<string, Value>, leaves: LeafDecoders, field: TransactionField)
    requires !field.TxPaymentId?
    requires TransactionKey(field.Ident()) !in obj
    ensures DecodeTransaction(obj, leaves).Err?
  {
    TransactionKeysAreCamelCase(field);
    TransactionRequiresKey(obj, leaves, field.WireKey());
  }

  /** Removing `paymentId` from an object changes only that field of the decoded value. */
  lemma TransactionPaymentIdOptional(obj: map<string, Value>, leaves: LeafDecoders)
    requires DecodeTransaction(obj, leaves).Ok?
    ensures DecodeTransaction(obj - {"paymentId"}, leaves)
         == Ok(DecodeTransaction(obj, leaves).value.(paymentId := None))
  {
    var obj' := obj - {"paymentId"};
    forall k | k in obj' ensures k in obj && obj'[k] == obj[k] { }
  }
}
