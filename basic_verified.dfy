/** `BasicVerifiedTransaction`: a raw transaction that passed the structural checks
    and whose signature has not yet been recovered. */
module BasicVerified {
  import opened Unverified

  /** Holds exactly one transaction and nothing else; the derived equality is the
      equality of the inner transactions. */
  datatype BasicVerifiedTransaction = BasicVerifiedTransaction(transaction: UnverifiedTransaction)

  /** `Deref`: read-through access to the wrapped transaction. Wrapping what it
      yields gives back the same wrapper, so nothing but the transaction is held. */
  function Deref(b: BasicVerifiedTransaction): (t: UnverifiedTransaction)
    ensures BasicVerifiedTransaction(t) == b
  {
    b.transaction
  }

  /** Every field read through the wrapper is the same read on the transaction,
      and two wrappers are equal exactly when their transactions are. */
  lemma DerefReadsThrough(b1: BasicVerifiedTransaction, b2: BasicVerifiedTransaction)
    ensures Deref(b1).unsigned == b1.transaction.unsigned
    ensures Deref(b1).chainId == b1.transaction.chainId
    ensures Deref(b1).isUnsigned == b1.transaction.isUnsigned
    ensures b1 == b2 <==> Deref(b1) == Deref(b2)
  {
  }
}
