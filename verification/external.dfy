/**
 * The foreign types the client passes around without looking inside them, and the
 * library renderings it calls. None of these is implemented by the crate itself:
 * `reqwest::async::Client`, `chrono::DateTime<Utc>`, `bigdecimal::BigDecimal` and
 * `uuid::Uuid` are opaque here, and their string renderings are supplied by the caller
 * of the model as total functions.
 */
module External {

  /** The pooled HTTP transport handle (`reqwest::async::Client`). */
  type HttpClient(==)

  /** A UTC timestamp (`chrono::DateTime<Utc>`). */
  type DateTime(==)

  /** An arbitrary-precision decimal (`bigdecimal::BigDecimal`). */
  type BigDecimal(==)

  /** A 128-bit identifier (`uuid::Uuid`). */
  type Uuid(==)

  /** `DateTime::to_rfc3339` and `BigDecimal::to_string`, left uninterpreted. */
  datatype Renderers = Renderers(toRfc3339: DateTime -> string, decimalToString: BigDecimal -> string)
}
