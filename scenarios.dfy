/** The two stages and the codec used together, on the situations the admission
    pipeline is built for. */
module Scenarios {
  import opened Wrappers
  import opened Primitives
  import opened Rlp
  import opened ActionCodec
  import opened Unverified
  import opened TxError
  import opened BasicVerified
  import opened Verified
  import opened Verification

  /** A normally signed low-s transaction for chain 1 passes both stages on chain
      1, with the sender derived from the recovered key; on chain 2 it is rejected
      with `InvalidChainId` by the structural stage. */
  lemma SignedTransactionOnItsChain(tx: UnverifiedTransaction, crypto: Crypto, k: Public)
    requires !tx.isUnsigned && tx.lowS && tx.chainId == Some(1)
    requires crypto.recoverPublic(tx) == Ok(k)
    ensures VerifyBasic(tx, true, Some(1), false, crypto.keyText) == Ok(BasicVerifiedTransaction(tx))
    ensures VerifySignature(BasicVerifiedTransaction(tx), crypto) ==
      Ok(VerifiedTransaction(tx, crypto.publicToAddress(k), Some(k)))
    ensures VerifyBasic(tx, true, Some(2), false, crypto.keyText) == Err(InvalidChainId)
  {
  }

  /** An EIP-86 transaction (no signature, zero gas price, value and nonce, and a
      chain id that is absent or the configured one) passes both stages when
      unsigned transactions are allowed, and gets the sentinel sender without any
      key recovery. */
  lemma Eip86TransactionAdmitted(tx: UnverifiedTransaction, checkLowS: bool, chainId: Option<U64>, crypto: Crypto)
    requires tx.isUnsigned && ZeroFields(tx) && (tx.chainId.None? || tx.chainId == chainId)
    ensures VerifyBasic(tx, checkLowS, chainId, true, crypto.keyText) == Ok(BasicVerifiedTransaction(tx))
    ensures VerifySignature(BasicVerifiedTransaction(tx), crypto) ==
      Ok(VerifiedTransaction(tx, UNSIGNED_SENDER, None))
  {
  }

  /** An empty action item decodes to `Create`, a twenty-byte one to a call. */
  lemma ActionItems(addr: Address)
    ensures Decode(Str([])) == Ok(Create)
    ensures Decode(Str(addr)) == Ok(Call(addr))
  {
  }

  /** An action that fails to decode surfaces as `InvalidRlp` carrying the
      decoder's text, and its message shows that text. */
  lemma ActionDecodeFailureIsInvalidRlp(
    item: Item, decoderText: DecoderError -> string, boundsText: OutOfBounds -> string)
    requires Decode(item).Err?
    ensures var e := FromDecoderError(Decode(item).error, decoderText);
      e.InvalidRlp? && e.reason == decoderText(AsAddress(item).error)
      && Display(e, boundsText) == RLP_PREFIX + decoderText(AsAddress(item).error) + "."
  {
  }
}
