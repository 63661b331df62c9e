# Transaction admission in Parity Ethereum, modelled in Dafny

This project models the transaction-admission core of Parity Ethereum's
`ethcore/types` crate. That core turns a raw, wire-decoded transaction into one
the rest of the node can trust, in two stages:

- **`verify_basic`** runs four cheap structural checks, in a fixed order:
  1. the low-`s` rule (Appendix F of the Ethereum Yellow Paper, EIP-2);
  2. unsigned transactions are refused unless EIP-86 is enabled;
  3. an EIP-86 unsigned transaction has zero gas price, value and nonce;
  4. the EIP-155 chain id matches.

  It wraps the untouched transaction in a `BasicVerifiedTransaction`.
- **`verify_signature`** recovers the public key. It derives the sender from that key, or gives an unsigned transaction the sentinel sender `UNSIGNED_SENDER`. The result is a `VerifiedTransaction`.

The pool may then wrap a verified transaction with an activation `Condition` into
a `PendingTransaction`. The model also covers:

- the wire codec of the transaction's `Action`: an empty RLP item means contract creation; twenty bytes mean a call;
- the transaction `Error` taxonomy and its messages;
- the `CallError` type and its messages.

Everything in the core is pure, so the model is written with datatypes, functions
and lemmas. These collaborators are parameters of the functions that use them:

- key recovery, the Keccak-256 address of a key, and signing (`Verification.Crypto`, `Verified.Signer`);
- the `Display` of foreign error types (`keyText`, `decoderText`, `boundsText`, `vmText`, `executionText`).

The proofs hold for every choice of them. `U256` values are printed in decimal, as
their `Display` does. `Decimal` models this, together with a reader that undoes it.
With the reader, the model proves that a threshold message shows both of its
numbers.

Modules, one per component:

- `Wrappers`: `Option`, `Result`.
- `Primitives`: `byte`, `U64`, `U256`, `Address`, `Public`, `Secret`, and `KeyError` (the signature library's errors).
- `Rlp`: RLP items (`Str`, `List`), `IsEmpty`, and the 20-byte value decoder.
- `Decimal`: decimal rendering of integers, and reading it back.
- `ActionCodec`: `Action`, its default, `Decode` and `Encode`.
- `Unverified`: the fields of the raw transaction that the verifiers read.
- `TxError`: the `Error` enum, its messages, its conversions and its `description`.
- `BasicVerified`, `Verified`, `Pending`: the trust-level wrappers, their projections and their conversions.
- `Verification`: the sentinels, `VerifyBasic`, and the ordered list of checks that states "first failure wins"; also `VerifySignature`.
- `CallErrors`: `CallError`, its conversion and its message.
- `Scenarios`: the stages and the codec used together.

## Model

| member | source | states |
|---|---|---|
| `ActionCodec.Default` | ethcore/types/src/transaction/mod.rs:57-61 | the default action is `Create` |
| `ActionCodec.Decode` | ethcore/types/src/transaction/mod.rs:63-71 | `Create` exactly for an empty item (empty string or empty list); `Call(a)` exactly for a 20-byte string, which is then `a` itself; any other item fails with the address decoder's own error |
| `ActionCodec.Encode` | ethcore/types/src/transaction/mod.rs:73-80 | always a string item, and an empty one exactly for `Create` |
| `ActionCodec.DecodeEncode` | ethcore/types/src/transaction/mod.rs:63-80 | `Decode(Encode(a)) == Ok(a)` for every action |
| `ActionCodec.EncodeDecode` | ethcore/types/src/transaction/mod.rs:63-80 | every item that decodes is re-encoded to itself, except the empty list |
| `ActionCodec.EmptyItemsDecodeAlike` | ethcore/types/src/transaction/mod.rs:65 | the empty list and the empty string are different items that both decode to `Create`, so decoding is not injective (parity/analyse_cmd.rs:71 scans stored blocks for empty-list actions and reports them as invalid; `decode` still accepts them as `Create`) |
| `Rlp.IsEmpty` | ethcore/types/src/transaction/mod.rs:65 | an item is empty when it is the empty string or the empty list; an empty item never decodes as an address |
| `Rlp.AsAddress` | ethcore/types/src/transaction/mod.rs:68 | an item decodes as an address exactly when it is a string of 20 bytes, and the address is those bytes |
| `Verification.SentinelsDiffer` | ethcore/types/src/transaction/mod.rs:36-45 | `UNSIGNED_SENDER` is twenty 0xff bytes; `SYSTEM_ADDRESS` agrees with it on the first nineteen bytes and ends in 0xfe, so the two are distinct |
| `Verification.SignatureRejected` | ethcore/types/src/transaction/mod.rs:91-102 | the structural signature rejections are `InvalidSignature` carrying the text of `ethkey::Error::InvalidSignature` |
| `Verification.VerifyBasic` | ethcore/types/src/transaction/mod.rs:83-115 | on success the wrapper holds the input transaction unchanged; the only errors are `InvalidChainId` and the signature rejection |
| `Verification.FirstFailing` | ethcore/types/src/transaction/mod.rs:90-108 | the position of the first failing check: it fails and every earlier check holds; none exactly when all hold |
| `Verification.FirstFailureWins` | ethcore/types/src/transaction/mod.rs:90-114 | `verify_basic` returns the error of the first check that fails, in the order low-s, unsigned allowed, EIP-86 zero fields, chain id; it succeeds with the wrapped transaction when none fails |
| `Verification.AcceptedIffAllChecksHold` | ethcore/types/src/transaction/mod.rs:90-114 | `verify_basic` succeeds exactly when all four checks hold |
| `Verification.HighSRejected` | ethcore/types/src/transaction/mod.rs:90-93 | with low-s checking on, a high-s transaction is rejected with `InvalidSignature` whatever its other fields and the chain ids; the only exception is an unsigned transaction that is allowed |
| `Verification.HighSBeatsWrongChain` | ethcore/types/src/transaction/mod.rs:90-108 | a signed high-s transaction with a wrong chain id gets `InvalidSignature`, not `InvalidChainId` |
| `Verification.UnsignedRejectedWithoutEip86` | ethcore/types/src/transaction/mod.rs:95-98 | without `allow_empty_signature`, every unsigned transaction gets `InvalidSignature` |
| `Verification.UnsignedAcceptedOnlyWithZeroFields` | ethcore/types/src/transaction/mod.rs:95-108 | an accepted unsigned transaction had EIP-86 allowed and zero gas price, value and nonce; with EIP-86 allowed, a non-zero one of these gives `InvalidSignature`; all zero means accepted exactly when the chain id passes |
| `Verification.AcceptedChainIdMatches` | ethcore/types/src/transaction/mod.rs:105-108 | on success the declared chain id is absent or equal to the configured one; with no configured chain id, any transaction that declares one is rejected |
| `Verification.ChainIdRule` | ethcore/types/src/transaction/mod.rs:105-108 | a mismatch after the signature checks pass gives `InvalidChainId`; when the transaction declares no chain id, the configured one does not change the outcome |
| `Verification.VerifyBasicIdempotent` | ethcore/types/src/transaction/mod.rs:83-115 | re-verifying the wrapped transaction with the same policy accepts it again, with the same wrapper |
| `Verification.RelaxingPolicyKeepsAccepted` | ethcore/types/src/transaction/mod.rs:90-103 | turning off the low-s check, or enabling EIP-86, never rejects a transaction that was accepted before |
| `Verification.VerifySignature` | ethcore/types/src/transaction/mod.rs:117-135 | the transaction is carried over unchanged. Unsigned input gives `UNSIGNED_SENDER` and no key. Signed input gives `Some(recovered key)` and the address of that key. A failed recovery gives `InvalidSignature` with the library's text |
| `Verification.VerifySignatureIffAttested` | ethcore/types/src/transaction/mod.rs:117-135 | `verify_signature` yields `v` exactly when `v` wraps the same transaction and its sender and key are the ones the signature attests; it fails only with `InvalidSignature`, and never on an unsigned transaction |
| `Verification.PublicAbsentIffUnsigned` | ethcore/types/src/transaction/mod.rs:119-133 | the key is absent exactly for unsigned transactions, and then the sender is the sentinel |
| `Verification.SentinelIffUnsigned` | ethcore/types/src/transaction/mod.rs:119-133 | the sender is the sentinel exactly when the key is absent, provided no key's address is the sentinel |
| `BasicVerified.Deref` | ethcore/types/src/transaction/basic_verified.rs:27-32 | yields the wrapped transaction; wrapping it again gives the same wrapper, so the wrapper holds nothing else |
| `BasicVerified.DerefReadsThrough` | ethcore/types/src/transaction/basic_verified.rs:22-32 | fields read through the wrapper equal the same reads on the transaction; two wrappers are equal exactly when their transactions are |
| `Verified.Deref` | ethcore/types/src/transaction/verified.rs:67-72 | yields the inner transaction; with the sender and key it rebuilds the same value, so a verified transaction is exactly that triple |
| `Verified.IntoUnverified` | ethcore/types/src/transaction/verified.rs:74-78 | the conversion to `UnverifiedTransaction` returns the inner transaction |
| `Verified.SenderAndPublicDropped` | ethcore/types/src/transaction/verified.rs:61-78 | neither the conversion nor the encoding depends on the sender or the key |
| `Verified.RlpAppend` | ethcore/types/src/transaction/verified.rs:61-65 | appends the transaction's stored RLP bytes verbatim, counted as one item |
| `Verified.ActionOf` | ethcore/types/src/transaction/verified.rs:47-50 | a fixture's `to = Some(a)` becomes `Call(a)`, and `None` becomes `Create` |
| `Verified.TargetOf` | ethcore/types/src/transaction/verified.rs:47-50 | a reference inverse of the fixture's target mapping (not code at these lines): mapping its result back gives the action |
| `Verified.ActionTargetRoundTrip` | ethcore/types/src/transaction/verified.rs:47-50 | the fixture's target and the action determine each other, both ways |
| `Verified.BodyOf` | ethcore/types/src/transaction/verified.rs:41-53 | the transaction built from a fixture copies nonce, gas price, gas, value and data unchanged, and its action gives back the fixture's `to` |
| `Verified.FromFixture` | ethcore/types/src/transaction/verified.rs:39-59 | a fixture with a secret is signed with it and no chain id; one without a secret is null-signed with chain id 1 |
| `Pending.New` | ethcore/types/src/transaction/pending.rs:39-47 | stores the transaction and the condition unchanged |
| `Pending.Deref` | ethcore/types/src/transaction/pending.rs:49-55 | yields the inner verified transaction; with the condition it rebuilds the same value |
| `Pending.FromVerified` | ethcore/types/src/transaction/pending.rs:57-64 | converting a verified transaction equals `new(t, None)`, i.e. eligible at once |
| `Pending.DerefChain` | ethcore/types/src/transaction/pending.rs:49-64 | reading through the pending and verified layers reaches the original transaction |
| `TxError.Display` | ethcore/types/src/transaction/error.rs:23-98 | every variant renders a non-empty message |
| `TxError.FromKeyError` | ethcore/types/src/transaction/error.rs:100-104 | every signature-library error becomes `InvalidSignature` carrying its display text |
| `TxError.FromDecoderError` | ethcore/types/src/transaction/error.rs:106-110 | every RLP decoder error becomes `InvalidRlp` carrying its display text |
| `TxError.DescriptionIsUniform` | ethcore/types/src/transaction/error.rs:112-116 | `description()` is "Transaction error" for every variant |
| `TxError.ThresholdMessagesDetermineValues` | ethcore/types/src/transaction/error.rs:39-70 | two threshold messages are equal only for equal errors. The thresholds are insufficient gas price, insufficient gas, insufficient balance and gas limit exceeded. Both numbers, and the variant, can be read back from the message |
| `TxError.RejectionLeadShown` | ethcore/types/src/transaction/error.rs:83-97 | `InvalidSignature(s)` renders as "Transaction has invalid signature: " + s + "." and `InvalidRlp(s)` as "Transaction has invalid RLP structure: " + s + "."; `InvalidChainId` renders exactly "Transaction of this chain ID is not allowed on this chain." |
| `TxError.ThresholdLeadShown` | ethcore/types/src/transaction/error.rs:39-70 | each threshold message starts with its variant's fixed lead ("Insufficient gas price. Min = ", "Insufficient gas. Min = ", "Insufficient balance for transaction. Balance = ", "Gas limit exceeded. Limit = ") |
| `TxError.TwoNumbers` | ethcore/types/src/transaction/error.rs:39-70 | the two-number message layout starts with its lead; with `Decimal.TwoNumbersReadBack` both numbers are determined by the message |
| `TxError.Description` | ethcore/types/src/transaction/error.rs:112-116 | `description()` is "Transaction error" |
| `TxError.VerifierRejectionsReadBack` | ethcore/types/src/transaction/error.rs:83-97 | the messages of the signature, RLP and chain-id rejections never coincide, and the carried reason can be read back |
| `Decimal.ToDecimal` | ethcore/types/src/transaction/error.rs:40-46 | a rendered `U256` is a non-empty string of decimal digits |
| `Decimal.ParseToDecimal` | ethcore/types/src/transaction/error.rs:40-46 | reading back a rendered number gives the number |
| `Decimal.TwoNumbersReadBack` | ethcore/types/src/transaction/error.rs:39-70 | a message of fixed text, a number, a separator that does not start with a digit, and a number determines both numbers |
| `CallErrors.FromExecution` | ethcore/types/src/errors/call_error.rs:36-40 | converting an execution error gives `Execution(e)` with `e` unchanged |
| `CallErrors.Message` | ethcore/types/src/errors/call_error.rs:45-51 | `TransactionNotFound`, `StatePruned` and `StateCorrupt` give their three fixed texts, whatever the foreign texts are; `Execution(e)` uses `e`'s own text as the message; `Exceptional(e)` wraps `e`'s text, which can be read back from between the fixed 14-character opening and 27-character closing |
| `CallErrors.Display` | ethcore/types/src/errors/call_error.rs:42-55 | every rendering is "Transaction execution error (" + msg + ")." and unwrapping gives back the variant's message |
| `CallErrors.DisplayInjectiveOnMessages` | ethcore/types/src/errors/call_error.rs:45-53 | two call errors render alike exactly when their inner messages are alike |
| `CallErrors.ForeignTextsShown` | ethcore/types/src/errors/call_error.rs:48-50 | `Execution(e)` shows `e`'s own text, and `Exceptional(e)` shows "An exception (" + text + ") happened in the execution" |
| `CallErrors.FixedMessagesDistinct` | ethcore/types/src/errors/call_error.rs:46-49 | the fixed messages of `TransactionNotFound`, `StatePruned` and `StateCorrupt` tell the variants apart |
| `Scenarios.SignedTransactionOnItsChain` | ethcore/types/src/transaction/mod.rs:83-135 | a signed low-s chain-1 transaction passes both stages on chain 1, with the sender derived from its key; on chain 2 it gets `InvalidChainId` |
| `Scenarios.Eip86TransactionAdmitted` | ethcore/types/src/transaction/mod.rs:95-124 | an EIP-86 transaction whose chain id is absent or the configured one passes both stages when unsigned transactions are allowed, and gets `UNSIGNED_SENDER` |
| `Scenarios.ActionItems` | ethcore/types/src/transaction/mod.rs:63-71 | an empty item decodes to `Create`, a 20-byte item to `Call` of those bytes |
| `Scenarios.ActionDecodeFailureIsInvalidRlp` | ethcore/types/src/transaction/error.rs:95-110 | an action that fails to decode surfaces as `InvalidRlp` with the decoder's text, and its message shows that text |

## Left out

- Cryptography is abstract: secp256k1 public-key recovery, the Keccak-256 address of a public key, `sign` and `null_sign` are function-valued parameters (`Verification.Crypto`, `Verified.Signer`). The low-`s` predicate and `is_unsigned` are boolean fields of the transaction.
- `transaction.rs` is not part of this model. `Transaction` and `UnverifiedTransaction` keep only the fields the core reads: the body, `isUnsigned`, `lowS`, `chainId` and the stored RLP bytes. The signing hash and the RLP layout of a whole transaction are left out.
- The RLP library's byte-level encoding is left out. Actions are decoded from and encoded to abstract items. `AsAddress` follows the library's rule for 20-byte values: a list gives `RlpExpectedToBeData`, a shorter string `RlpIsTooShort`, a longer one `RlpIsTooBig`.
- `KeyError` and `DecoderError` name only the variants this core produces or meets. The other variants of the foreign error types are collapsed into one.
- The `Display` of `ethkey::Error`, `rlp::DecoderError`, `OutOfBounds`, `vm::Error` and `ExecutionError` is a parameter. The `CallError` type is generic in the last two.
- No `U256` arithmetic occurs in the core; values are naturals below 2^256.
- `MallocSizeOf` and `Debug` derives, and the parsing of JSON fixtures, are left out.
- `parity/analyse_cmd.rs` is CLI plumbing. Its line 71 reports an empty-list action as invalid, while `decode` accepts it as `Create`; the model follows `decode` (`ActionCodec.EmptyItemsDecodeAlike`).
- Evaluating a `Condition` against the current block or time belongs to the transaction pool and is not part of this model.
- `TxError.Display`: its own contract only says the message is non-empty. `TxError.RejectionLeadShown` states the full `InvalidSignature`, `InvalidRlp` and `InvalidChainId` messages. `TxError.ThresholdLeadShown` states the lead of each threshold message, and the read-back lemmas state that its numbers are determined by the message. The nine fixed pool texts (`AlreadyImported`, `Old`, `TooCheapToReplace`, `LimitReached`, `SenderBanned`, `RecipientBanned`, `CodeBanned`, `NotAllowed`, `TooBig`), the `InvalidGasLimit` text and the separators of the threshold messages appear only in the body of `Display`.
- `Verification.SentinelIffUnsigned`: this is weaker than "`sender == UNSIGNED_SENDER` iff there is no public key". The code guarantees the converse only if no recovered key's address is the sentinel, so the lemma takes that as a hypothesis.
- `Verification.UnsignedAcceptedOnlyWithZeroFields`: an EIP-86 unsigned transaction with zero gas price, value and nonce still goes through the chain-id check at mod.rs:105-108, so it is accepted only when that check passes.
