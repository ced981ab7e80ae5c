/** The cryptographic primitives the signing code calls. They are not
    modelled: a `Primitives` value is any choice of functions, and every
    property proved about signing holds whatever they compute. */
module Crypto {
  import opened Results
  import opened Bytes

  datatype Primitives = Primitives(
    /** `sha256.Sum`. */
    sha256: seq<byte> -> seq<byte>,
    /** `hmac.New(sha256.New, key)` over a message, then `Sum(nil)`. */
    hmacSha256: (seq<byte>, seq<byte>) -> seq<byte>,
    /** `hmac.New(sha512.New, key)` over a message, then `Sum(nil)`. */
    hmacSha512: (seq<byte>, seq<byte>) -> seq<byte>,
    /** `base64.StdEncoding.EncodeToString`. */
    base64Encode: seq<byte> -> string,
    /** `base64.StdEncoding.DecodeString`. */
    base64Decode: string -> Result<seq<byte>>
  )
}
