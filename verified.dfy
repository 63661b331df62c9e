/** `VerifiedTransaction`: a transaction together with the sender recovered from
    its signature and, for a signed transaction, the recovered public key. */
module Verified {
  import opened Wrappers
  import opened Primitives
  import opened ActionCodec
  import opened Unverified

  datatype VerifiedTransaction = VerifiedTransaction(
    transaction: UnverifiedTransaction,
    sender: Address,
    public: Option<Public>)

  /** `Deref`: read-through access to the wrapped transaction. */
  function Deref(v: VerifiedTransaction): (t: UnverifiedTransaction)
    ensures VerifiedTransaction(t, v.sender, v.public) == v
  {
    v.transaction
  }

  /** `From<VerifiedTransaction> for UnverifiedTransaction`: keeps the transaction
      and drops the sender and the public key. */
  function IntoUnverified(v: VerifiedTransaction): (t: UnverifiedTransaction)
    ensures t == Deref(v)
  {
    v.transaction
  }

  /** What `RlpStream::append_raw(bytes, count)` is handed. */
  datatype RawAppend = RawAppend(bytes: seq<byte>, itemCount: nat)

  /** `Encodable::rlp_append`: the stored encoding of the transaction, verbatim, as
      one item; the sender and public key play no part in it. */
  function RlpAppend(v: VerifiedTransaction): (out: RawAppend)
    ensures out.bytes == IntoUnverified(v).rlp && out.itemCount == 1
  {
    RawAppend(v.transaction.rlp, 1)
  }

  /** The sender and the public key are dropped on conversion and play no part in
      the encoding: only the transaction decides either. */
  lemma SenderAndPublicDropped(v: VerifiedTransaction, sender: Address, public: Option<Public>)
    ensures IntoUnverified(VerifiedTransaction(v.transaction, sender, public)) == IntoUnverified(v)
    ensures RlpAppend(VerifiedTransaction(v.transaction, sender, public)) == RlpAppend(v)
  {
  }

  /** A state-test fixture (`ethjson::state::Transaction`). */
  datatype Fixture = Fixture(
    nonce: U256,
    gasPrice: U256,
    gasLimit: U256,
    to: Option<Address>,
    value: U256,
    data: seq<byte>,
    secret: Option<Secret>)

  /** The signing operations of `Transaction`, which this model leaves abstract:
      `sign(secret, chain_id)` and `null_sign(chain_id)`. */
  datatype Signer = Signer(
    sign: (Transaction, Secret, Option<U64>) -> VerifiedTransaction,
    nullSign: (Transaction, U64) -> VerifiedTransaction)

  /** The fixture's `to` as an action: an address means a call, none a creation. */
  function ActionOf(to: Option<Address>): (a: Action)
    ensures a.Create? <==> to.None?
    ensures to.Some? ==> a == Call(to.value)
  {
    match to
    case Some(addr) => Call(addr)
    case None => Create
  }

  /** The inverse of `ActionOf`. */
  function TargetOf(a: Action): (to: Option<Address>)
    ensures ActionOf(to) == a
  {
    match a
    case Call(addr) => Some(addr)
    case Create => None
  }

  /** `ActionOf` and `TargetOf` are a bijection. */
  lemma ActionTargetRoundTrip(to: Option<Address>, a: Action)
    ensures TargetOf(ActionOf(to)) == to
    ensures ActionOf(TargetOf(a)) == a
  {
  }

  /** The transaction body built from a fixture: every field copied unchanged. */
  function BodyOf(f: Fixture): (t: Transaction)
    ensures t.nonce == f.nonce && t.gasPrice == f.gasPrice && t.gas == f.gasLimit
    ensures t.value == f.value && t.data == f.data
    ensures TargetOf(t.action) == f.to
  {
    Transaction(f.nonce, f.gasPrice, f.gasLimit, ActionOf(f.to), f.value, f.data)
  }

  /** `From<ethjson::state::Transaction>`: a fixture with a secret is signed with
      it and no chain id; one without is null-signed with chain id 1. */
  function FromFixture(f: Fixture, signer: Signer): (v: VerifiedTransaction)
    ensures f.secret.Some? ==> v == signer.sign(BodyOf(f), f.secret.value, None)
    ensures f.secret.None? ==> v == signer.nullSign(BodyOf(f), 1)
  {
    var tx := BodyOf(f);
    match f.secret
    case Some(s) => signer.sign(tx, s, None)
    case None => signer.nullSign(tx, 1)
  }
}
