/**
 * A decoded JSON document, and the field-level rules serde's derived `Deserialize`
 * applies when it reads a struct from a JSON object: a plain field must be present and
 * hold a value of its type; an `Option` field may be absent or `null` (both give `None`).
 * Reading JSON text is not part of this model.
 */
module Json {
  import opened Wrappers
  import DecimalText

  /** A JSON value; numbers are kept to integers. */
  datatype Value =
    | Null
    | Bool(b: bool)
    | Number(n: int)
    | String(s: string)
    | Array(items: seq<Value>)
    | Object(members: map<string, Value>)

  datatype DecodeError = MissingField(name: string) | InvalidValue(name: string)

  /** How a JSON value decodes into `String`. */
  function AsString(v: Value): (r: Option<string>)
    ensures r.Some? <==> v.String?
    ensures r.Some? ==> r.value == v.s
  {
    if v.String? then Some(v.s) else None
  }

  /** How a JSON value decodes into `bool`. */
  function AsBool(v: Value): (r: Option<bool>)
    ensures r.Some? <==> v.Bool?
    ensures r.Some? ==> r.value == v.b
  {
    if v.Bool? then Some(v.b) else None
  }

  /** How a JSON value decodes into `u64`: an integer within the type's range. */
  function AsU64(v: Value): (r: Option<DecimalText.U64>)
    ensures r.Some? <==> v.Number? && 0 <= v.n < DecimalText.U64_LIMIT
    ensures r.Some? ==> r.value == v.n
  {
    if v.Number? && 0 <= v.n < DecimalText.U64_LIMIT then Some(v.n) else None
  }

  /** `v` is the externally tagged JSON form of the unit variant named `name`. */
  predicate EncodesUnitVariant(v: Value, name: string) {
    v == String(name) || v == Object(map[name := Null])
  }

  /**
   * The variant name serde_json reads a unit variant from: a JSON string, or an object
   * with a single key whose value is `null`. Any other value is an invalid type.
   */
  function UnitVariantName(v: Value): (r: Option<string>)
    ensures r.Some? ==> EncodesUnitVariant(v, r.value)
    ensures forall name :: EncodesUnitVariant(v, name) ==> r == Some(name)
  {
    match v
    case String(s) => Some(s)
    case Object(members) =>
      if |members| == 1 then
        SingleKey(members);
        var k :| k in members;
        if members[k] == Null then
          assert members == map[k := Null];
          Some(k)
        else None
      else None
    case _ => None
  }

  /** A map with one entry has one key. */
  lemma SingleKey(members: map<string, Value>)
    requires |members| == 1
    ensures forall a, b :: a in members && b in members ==> a == b
  {
    forall a, b | a in members && b in members
      ensures a == b
    {
      assert |members.Keys - {a}| == 0;
    }
  }

  /** A required field is present and its value decodes. */
  predicate Has<T>(obj: map<string, Value>, key: string, leaf: Value -> Option<T>) {
    key in obj && leaf(obj[key]).Some?
  }

  /** The decoded value of a required field. */
  function Get<T>(obj: map<string, Value>, key: string, leaf: Value -> Option<T>): T
    requires Has(obj, key, leaf)
  {
    leaf(obj[key]).value
  }

  /** An optional field is absent, `null`, or holds a value that decodes. */
  predicate MayHave<T>(obj: map<string, Value>, key: string, leaf: Value -> Option<T>) {
    key !in obj || obj[key].Null? || leaf(obj[key]).Some?
  }

  /** The decoded value of an optional field: `None` when absent or `null`. */
  function GetOptional<T>(obj: map<string, Value>, key: string, leaf: Value -> Option<T>): Option<T>
    requires MayHave(obj, key, leaf)
  {
    if key !in obj || obj[key].Null? then None else Some(leaf(obj[key]).value)
  }

  /** Reads a required field; a missing key and an undecodable value are both errors. */
  function Required<T>(obj: map<string, Value>, key: string, leaf: Value -> Option<T>): (r: Result<T, DecodeError>)
    ensures r.Ok? <==> Has(obj, key, leaf)
    ensures r.Ok? ==> r.value == Get(obj, key, leaf)
    ensures key !in obj ==> r == Err(MissingField(key))
  {
    if key !in obj then Err(MissingField(key))
    else match leaf(obj[key])
      case None => Err(InvalidValue(key))
      case Some(v) => Ok(v)
  }

  /** Reads an `Option` field; it never fails for want of the key. */
  function Optional<T>(obj: map<string, Value>, key: string, leaf: Value -> Option<T>): (r: Result<Option<T>, DecodeError>)
    ensures r.Ok? <==> MayHave(obj, key, leaf)
    ensures r.Ok? ==> r.value == GetOptional(obj, key, leaf)
    ensures key !in obj ==> r == Ok(None)
  {
    if key !in obj || obj[key].Null? then Ok(None)
    else match leaf(obj[key])
      case None => Err(InvalidValue(key))
      case Some(v) => Ok(Some(v))
  }
}
