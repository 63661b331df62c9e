/** The raw transaction the verifiers consume. Its own code (signing, hashing,
    RLP layout) is not part of this model; only what the verifiers read is. */
module Unverified {
  import opened Wrappers
  import opened Primitives
  import opened ActionCodec

  /** The unsigned transaction body (`Transaction`). */
  datatype Transaction = Transaction(
    nonce: U256,
    gasPrice: U256,
    gas: U256,
    action: Action,
    value: U256,
    data: seq<byte>)

  /** `UnverifiedTransaction`: the body, what its signature container reports, and
      the RLP bytes it was decoded from. */
  datatype UnverifiedTransaction = UnverifiedTransaction(
    unsigned: Transaction,
    /** `is_unsigned()`: the EIP-86 empty signature. */
    isUnsigned: bool,
    /** `signature().is_low_s()`: `s` is in the lower half of the curve order. */
    lowS: bool,
    /** `chain_id()`. */
    chainId: Option<U64>,
    /** The stored RLP encoding. */
    rlp: seq<byte>)
}
