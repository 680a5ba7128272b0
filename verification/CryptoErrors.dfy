/** The secret-free errors of `crates/crypto-core/src/error.rs`. */
module CryptoErrors {
  datatype Error =
    | InvalidEncoding | UnsupportedVersion | NonCanonicalCbor | UnknownField | InvalidContext
    | InvalidNonce | AuthenticationFailed | InvalidKdfParameters | KdfResourceLimit | InvalidKeyLength | Internal
}
