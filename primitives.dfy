/** Fixed-width values shared by every component: bytes, 64- and 256-bit unsigned
    integers, 20-byte addresses and the key material of the signature library. */
module Primitives {

  newtype byte = b: int | 0 <= b < 256

  /** `u64`, as used for chain ids and block numbers. */
  type U64 = n: nat | n < 0x1_0000_0000_0000_0000

  /** `U256`, as used for nonces, gas, gas prices, values and balances. */
  type U256 = n: nat | n < 0x1_0000_0000_0000_0000_0000_0000_0000_0000_0000_0000_0000_0000_0000_0000_0000_0000

  /** `Address` (`H160`): exactly twenty bytes. */
  type Address = s: seq<byte> | |s| == 20 witness seq(20, _ => 0)

  /** An uncompressed secp256k1 public key (`ethkey::Public`): sixty-four bytes. */
  type Public = s: seq<byte> | |s| == 64 witness seq(64, _ => 0)

  /** A secp256k1 secret key (`ethkey::Secret`): thirty-two bytes. */
  type Secret = s: seq<byte> | |s| == 32 witness seq(32, _ => 0)

  /** The errors of the signature library (`ethkey::Error`). Only the variant the
      verifiers raise themselves is named; the others are collapsed into one. */
  datatype KeyError = InvalidSignature | OtherKeyError(detail: string)
}
