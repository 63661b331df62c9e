/** `PendingTransaction`: a verified transaction with an optional activation
    condition, as the transaction pool queues it. */
module Pending {
  import opened Wrappers
  import opened Primitives
  import opened Verified

  /** The earliest point at which a transaction may be included. */
  datatype Condition =
    /** At this block number or later. */
    | Number(block: U64)
    /** At this unix time or later. */
    | Timestamp(seconds: U64)

  /** `condition == None` means the transaction is eligible at once. */
  datatype PendingTransaction = PendingTransaction(
    transaction: VerifiedTransaction,
    condition: Option<Condition>)

  /** `PendingTransaction::new`: stores both arguments unchanged. */
  function New(transaction: VerifiedTransaction, condition: Option<Condition>): (p: PendingTransaction)
    ensures Deref(p) == transaction && p.condition == condition
  {
    PendingTransaction(transaction, condition)
  }

  /** `Deref`: read-through access to the verified transaction. */
  function Deref(p: PendingTransaction): (v: VerifiedTransaction)
    ensures PendingTransaction(v, p.condition) == p
  {
    p.transaction
  }

  /** `From<VerifiedTransaction>`: immediately eligible. */
  function FromVerified(transaction: VerifiedTransaction): (p: PendingTransaction)
    ensures p == New(transaction, None)
  {
    PendingTransaction(transaction, None)
  }

  /** Reading through two layers of wrapping reaches the raw transaction. */
  lemma DerefChain(v: VerifiedTransaction, c: Option<Condition>)
    ensures Deref(FromVerified(v)) == v
    ensures Verified.Deref(Deref(New(v, c))) == v.transaction
  {
  }
}
