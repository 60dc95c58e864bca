/** The foreign crates the core calls into, as a record of functions the model takes as a
    parameter: URL parsing (`url`), IDNA conversion (`idna`), base64 (`base64`), PEM key
    parsing and RSA-SHA256 verification (`openssl`). Nothing is assumed about them except
    where a lemma states it as a hypothesis. */
module Foreign {
  import opened Wrappers
  import opened Text

  /** An `openssl::pkey::PKey<Public>`, by the DER bytes it was decoded to. */
  datatype PublicKey = PublicKey(der: seq<byte>)

  /** An `openssl::error::ErrorStack`. */
  datatype CryptoError = CryptoError

  datatype Libs = Libs(
    /** `Url::parse(s)` followed by `host_str()`: `None` when `s` is not a URL or has no host. */
    urlHost: string -> Option<string>,
    /** `idna::domain_to_ascii`: `None` on an IDNA error. */
    domainToAscii: string -> Option<string>,
    /** The string half of `idna::domain_to_unicode`. */
    domainToUnicode: string -> string,
    /** `base64::encode` with the standard alphabet and padding. */
    base64Encode: seq<byte> -> string,
    /** `base64::decode`: `None` on a `DecodeError`. */
    base64Decode: string -> Option<seq<byte>>,
    /** `PKey::public_key_from_pem` */
    publicKeyFromPem: string -> Option<PublicKey>,
    /** `do_verify` with SHA-256: an RSA signature check of `sig` over `body` under `key`. */
    rsaSha256Verify: (PublicKey, string, seq<byte>) -> Result<bool, CryptoError>)

  /** A character of the standard base64 alphabet with padding. */
  predicate IsBase64Char(c: char) {
    ('A' <= c <= 'Z') || ('a' <= c <= 'z') || ('0' <= c <= '9') || c == '+' || c == '/' || c == '='
  }

  predicate IsBase64Text(s: string) {
    forall i :: 0 <= i < |s| ==> IsBase64Char(s[i])
  }

  /** What the `base64` crate guarantees and the round-trip lemmas rely on: encoding writes
      only the base64 alphabet, and decoding gives back what was encoded. */
  ghost predicate Base64Lawful(libs: Libs) {
    forall b: seq<byte> ::
      IsBase64Text(libs.base64Encode(b)) && libs.base64Decode(libs.base64Encode(b)) == Some(b)
  }
}
