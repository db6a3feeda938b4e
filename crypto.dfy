/**
 * The foreign cryptography the code calls: Keccak-256 and secp256k1 key derivation,
 * signing and public-key recovery. Their internals are not modelled; a `Primitives`
 * value stands for one implementation of them, and every property that depends on the
 * mathematics of ECDSA takes it as an explicit hypothesis.
 */
module Crypto {
  import opened Wrappers
  import opened Hex
  import Utf8

  /** A recoverable signature: the 64-byte compact (r, s) encoding and the recovery bit. */
  datatype Signature = Signature(compact: seq<Byte>, recovery: int)

  datatype Primitives = Primitives(
    /** `keccak256` */
    keccak256: seq<Byte> -> seq<Byte>,
    /** `secp256k1.getPublicKey`, with the library's default point encoding */
    getPublicKey: seq<Byte> -> seq<Byte>,
    /** `secp256k1.sign(msgHash, privateKey)`; `None` when it throws (an invalid private key) */
    sign: (seq<Byte>, seq<Byte>) -> Option<Signature>,
    /**
     * `Signature.fromCompact(bytes).addRecoveryBit(bit).recoverPublicKey(msgHash).toRawBytes()`;
     * `None` when any of these throws (a blob that is not 64 bytes, r or s out of range,
     * a bad recovery bit, no point satisfying the recovery equation)
     */
    recoverPublicKey: (seq<Byte>, seq<Byte>, int) -> Option<seq<Byte>>,
    /** the message of the exception the library throws on the client */
    exceptionMessage: string)

  /** `keccak256(utf8ToBytes(message))`, the digest both sides sign and verify. */
  function MessageHash(c: Primitives, message: string): seq<Byte> {
    c.keccak256(Utf8.Utf8ToBytes(message))
  }

  /**
   * The ECDSA round trip for one key and one digest: whatever `sign` produces, recovery
   * on the same digest yields the public key of the signing key. This is a hypothesis
   * about secp256k1, never proved here.
   */
  ghost predicate RecoversSigner(c: Primitives, privateKey: seq<Byte>, msgHash: seq<Byte>) {
    match c.sign(msgHash, privateKey)
    case None => true
    case Some(sig) => c.recoverPublicKey(msgHash, sig.compact, sig.recovery) == Some(c.getPublicKey(privateKey))
  }
}
