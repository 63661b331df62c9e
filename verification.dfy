/** The two-stage admission pipeline: the structural verifier `verify_basic`, the
    signature verifier `verify_signature`, and the two sentinel addresses. */
module Verification {
  import opened Wrappers
  import opened Primitives
  import opened Unverified
  import opened TxError
  import opened BasicVerified
  import opened Verified

  /** The sender given to valid EIP-86 unsigned transactions: twenty 0xff bytes. */
  const UNSIGNED_SENDER: Address := seq(20, _ => 0xff)

  /** The sender of internally synthesised state-update transactions. */
  const SYSTEM_ADDRESS: Address := [
    0xff, 0xff, 0xff, 0xff, 0xff,
    0xff, 0xff, 0xff, 0xff, 0xff,
    0xff, 0xff, 0xff, 0xff, 0xff,
    0xff, 0xff, 0xff, 0xff, 0xfe
  ]

  /** The two sentinels agree on their first nineteen bytes and differ in the last. */
  lemma SentinelsDiffer()
    ensures forall i :: 0 <= i < 19 ==> UNSIGNED_SENDER[i] == SYSTEM_ADDRESS[i] == 0xff
    ensures UNSIGNED_SENDER[19] == 0xff && SYSTEM_ADDRESS[19] == 0xfe
    ensures UNSIGNED_SENDER != SYSTEM_ADDRESS
  {
    assert UNSIGNED_SENDER[19] != SYSTEM_ADDRESS[19];
  }

  /** `ethkey::Error::InvalidSignature.into()`: the error every signature-related
      structural check raises. */
  function SignatureRejected(keyText: KeyError -> string): (e: Error)
    ensures e.InvalidSignature? && e == FromKeyError(KeyError.InvalidSignature, keyText)
  {
    FromKeyError(KeyError.InvalidSignature, keyText)
  }

  /** `verify_basic`: four guarded early returns; on success the transaction is
      wrapped unchanged. `keyText` is the `Display` of `ethkey::Error`. */
  function VerifyBasic(
    tx: UnverifiedTransaction,
    checkLowS: bool,
    chainId: Option<U64>,
    allowEmptySignature: bool,
    keyText: KeyError -> string): (r: Result<BasicVerifiedTransaction, Error>)
    ensures r.Ok? ==> BasicVerified.Deref(r.value) == tx
    ensures r.Err? ==> r.error == InvalidChainId || r.error == SignatureRejected(keyText)
  {
    if checkLowS && !(allowEmptySignature && tx.isUnsigned) && !tx.lowS then
      Err(SignatureRejected(keyText))
    else if !allowEmptySignature && tx.isUnsigned then
      Err(SignatureRejected(keyText))
    else if allowEmptySignature && tx.isUnsigned
      && !(tx.unsigned.gasPrice == 0 && tx.unsigned.value == 0 && tx.unsigned.nonce == 0) then
      Err(SignatureRejected(keyText))
    else if tx.chainId.Some? && tx.chainId != chainId then
      Err(InvalidChainId)
    else
      Ok(BasicVerifiedTransaction(tx))
  }

  // ---------------------------------------------------------------------------
  // The structural checks as an ordered list, the reference for "first failure wins"

  /** The node's configuration of the structural stage. */
  datatype Policy = Policy(checkLowS: bool, chainId: Option<U64>, allowEmptySignature: bool)

  /** The structural checks, each stated as the condition a transaction must meet. */
  datatype Check =
    /** Appendix F of the Yellow Paper / EIP-2: `s` in the lower half. */
    | LowS
    /** Unsigned transactions only where EIP-86 is enabled. */
    | UnsignedAllowed
    /** EIP-86: an unsigned transaction has zero gas price, value and nonce. */
    | ZeroFieldsWhenUnsigned
    /** EIP-155: a declared chain id is the configured one. */
    | ChainIdMatches

  /** The order in which the verifier applies the checks. */
  const CHECK_ORDER: seq<Check> := [LowS, UnsignedAllowed, ZeroFieldsWhenUnsigned, ChainIdMatches]

  predicate Holds(c: Check, tx: UnverifiedTransaction, p: Policy) {
    match c
    case LowS => p.checkLowS ==> tx.lowS || (p.allowEmptySignature && tx.isUnsigned)
    case UnsignedAllowed => tx.isUnsigned ==> p.allowEmptySignature
    case ZeroFieldsWhenUnsigned =>
      (tx.isUnsigned && p.allowEmptySignature) ==> ZeroFields(tx)
    case ChainIdMatches => tx.chainId.Some? ==> tx.chainId == p.chainId
  }

  /** The error a failed check is reported with. */
  function Rejection(c: Check, keyText: KeyError -> string): Error {
    if c == ChainIdMatches then InvalidChainId else SignatureRejected(keyText)
  }

  /** The position of the first check in `checks` that fails, if any. */
  function FirstFailing(checks: seq<Check>, tx: UnverifiedTransaction, p: Policy): (r: Option<nat>)
    ensures r.Some? ==> r.value < |checks| && !Holds(checks[r.value], tx, p)
    ensures r.Some? ==> forall j :: 0 <= j < r.value ==> Holds(checks[j], tx, p)
    ensures r.None? <==> forall j :: 0 <= j < |checks| ==> Holds(checks[j], tx, p)
  {
    if checks == [] then None
    else if !Holds(checks[0], tx, p) then Some(0)
    else match FirstFailing(checks[1..], tx, p)
      case None => None
      case Some(i) => Some(i + 1)
  }

  /** First failure wins: `verify_basic` reports the error of the first check, in
      `CHECK_ORDER`, that the transaction fails, and succeeds when none fails. */
  lemma FirstFailureWins(
    tx: UnverifiedTransaction, checkLowS: bool, chainId: Option<U64>, allowEmptySignature: bool,
    keyText: KeyError -> string)
    ensures var p := Policy(checkLowS, chainId, allowEmptySignature);
      VerifyBasic(tx, checkLowS, chainId, allowEmptySignature, keyText) ==
        match FirstFailing(CHECK_ORDER, tx, p)
        case None => Ok(BasicVerifiedTransaction(tx))
        case Some(i) => Err(Rejection(CHECK_ORDER[i], keyText))
  {
    var p := Policy(checkLowS, chainId, allowEmptySignature);
    var r := FirstFailing(CHECK_ORDER, tx, p);
    if r.Some? {
      var i := r.value;
      assert i < 4 && !Holds(CHECK_ORDER[i], tx, p);
      if i == 0 {
      } else if i == 1 {
        assert Holds(CHECK_ORDER[0], tx, p);
      } else if i == 2 {
        assert Holds(CHECK_ORDER[0], tx, p) && Holds(CHECK_ORDER[1], tx, p);
      } else {
        assert i == 3;
        assert Holds(CHECK_ORDER[0], tx, p) && Holds(CHECK_ORDER[1], tx, p);
        assert Holds(CHECK_ORDER[2], tx, p);
      }
    } else {
      assert Holds(CHECK_ORDER[0], tx, p) && Holds(CHECK_ORDER[1], tx, p);
      assert Holds(CHECK_ORDER[2], tx, p) && Holds(CHECK_ORDER[3], tx, p);
    }
  }

  /** `verify_basic` succeeds exactly when every check holds. */
  lemma AcceptedIffAllChecksHold(
    tx: UnverifiedTransaction, checkLowS: bool, chainId: Option<U64>, allowEmptySignature: bool,
    keyText: KeyError -> string)
    ensures var p := Policy(checkLowS, chainId, allowEmptySignature);
      VerifyBasic(tx, checkLowS, chainId, allowEmptySignature, keyText).Ok? <==>
        forall c :: c in CHECK_ORDER ==> Holds(c, tx, p)
  {
    var p := Policy(checkLowS, chainId, allowEmptySignature);
    FirstFailureWins(tx, checkLowS, chainId, allowEmptySignature, keyText);
    var r := FirstFailing(CHECK_ORDER, tx, p);
    if r.Some? {
      assert CHECK_ORDER[r.value] in CHECK_ORDER;
    } else {
      forall c | c in CHECK_ORDER ensures Holds(c, tx, p) {
        var j :| 0 <= j < |CHECK_ORDER| && CHECK_ORDER[j] == c;
      }
    }
  }

  // ---------------------------------------------------------------------------
  // The individual rules of the structural stage

  /** A high-s signature is rejected with `InvalidSignature` whatever the other
      fields and the chain id are, unless it is an allowed unsigned transaction. */
  lemma HighSRejected(
    tx: UnverifiedTransaction, chainId: Option<U64>, allowEmptySignature: bool,
    keyText: KeyError -> string)
    requires !tx.lowS && !(allowEmptySignature && tx.isUnsigned)
    ensures VerifyBasic(tx, true, chainId, allowEmptySignature, keyText) == Err(SignatureRejected(keyText))
  {
  }

  /** A high-s transaction with a wrong chain id gets `InvalidSignature`, not
      `InvalidChainId`: the low-s check comes first. */
  lemma HighSBeatsWrongChain(tx: UnverifiedTransaction, chainId: Option<U64>, keyText: KeyError -> string)
    requires !tx.lowS && !tx.isUnsigned && tx.chainId.Some? && tx.chainId != chainId
    ensures VerifyBasic(tx, true, chainId, false, keyText).error.InvalidSignature?
  {
  }

  /** Without EIP-86 every unsigned transaction is rejected with `InvalidSignature`. */
  lemma UnsignedRejectedWithoutEip86(
    tx: UnverifiedTransaction, checkLowS: bool, chainId: Option<U64>, keyText: KeyError -> string)
    requires tx.isUnsigned
    ensures VerifyBasic(tx, checkLowS, chainId, false, keyText) == Err(SignatureRejected(keyText))
  {
  }

  /** The EIP-86 shape: zero gas price, value and nonce. */
  predicate ZeroFields(tx: UnverifiedTransaction) {
    tx.unsigned.gasPrice == 0 && tx.unsigned.value == 0 && tx.unsigned.nonce == 0
  }

  /** An accepted unsigned transaction was allowed by the policy and has zero gas
      price, value and nonce; with EIP-86 enabled, an unsigned transaction with a
      non-zero one of them is rejected with `InvalidSignature`, and one with all
      three zero is accepted exactly when its chain id passes. */
  lemma UnsignedAcceptedOnlyWithZeroFields(
    tx: UnverifiedTransaction, checkLowS: bool, chainId: Option<U64>, allowEmptySignature: bool,
    keyText: KeyError -> string)
    requires tx.isUnsigned
    ensures VerifyBasic(tx, checkLowS, chainId, allowEmptySignature, keyText).Ok? ==>
      allowEmptySignature && ZeroFields(tx)
    ensures allowEmptySignature && !ZeroFields(tx) ==>
      VerifyBasic(tx, checkLowS, chainId, allowEmptySignature, keyText) == Err(SignatureRejected(keyText))
    ensures allowEmptySignature && ZeroFields(tx) ==>
      (VerifyBasic(tx, checkLowS, chainId, allowEmptySignature, keyText).Ok? <==>
       tx.chainId.None? || tx.chainId == chainId)
  {
  }

  /** On success the declared chain id is absent or the configured one, so a node
      configured without a chain id rejects every transaction that declares one. */
  lemma AcceptedChainIdMatches(
    tx: UnverifiedTransaction, checkLowS: bool, chainId: Option<U64>, allowEmptySignature: bool,
    keyText: KeyError -> string)
    ensures VerifyBasic(tx, checkLowS, chainId, allowEmptySignature, keyText).Ok? ==>
      tx.chainId.None? || tx.chainId == chainId
    ensures chainId.None? && tx.chainId.Some? ==>
      VerifyBasic(tx, checkLowS, chainId, allowEmptySignature, keyText).Err?
  {
  }

  /** A chain-id mismatch after the signature checks pass is `InvalidChainId`, and
      a transaction that declares no chain id is never checked against it. */
  lemma ChainIdRule(
    tx: UnverifiedTransaction, checkLowS: bool, chainId: Option<U64>, other: Option<U64>,
    allowEmptySignature: bool, keyText: KeyError -> string)
    ensures var p := Policy(checkLowS, chainId, allowEmptySignature);
      Holds(LowS, tx, p) && Holds(UnsignedAllowed, tx, p) && Holds(ZeroFieldsWhenUnsigned, tx, p)
      && tx.chainId.Some? && tx.chainId != chainId ==>
        VerifyBasic(tx, checkLowS, chainId, allowEmptySignature, keyText) == Err(InvalidChainId)
    ensures tx.chainId.None? ==>
      VerifyBasic(tx, checkLowS, chainId, allowEmptySignature, keyText) ==
      VerifyBasic(tx, checkLowS, other, allowEmptySignature, keyText)
  {
  }

  /** Verifying an already verified transaction again accepts it again. */
  lemma VerifyBasicIdempotent(
    tx: UnverifiedTransaction, checkLowS: bool, chainId: Option<U64>, allowEmptySignature: bool,
    keyText: KeyError -> string)
    requires VerifyBasic(tx, checkLowS, chainId, allowEmptySignature, keyText).Ok?
    ensures var b := VerifyBasic(tx, checkLowS, chainId, allowEmptySignature, keyText).value;
      VerifyBasic(BasicVerified.Deref(b), checkLowS, chainId, allowEmptySignature, keyText) == Ok(b)
  {
  }

  /** Relaxing the policy never rejects what the stricter policy accepted: turning
      the low-s check off, or enabling EIP-86 unsigned transactions. */
  lemma RelaxingPolicyKeepsAccepted(
    tx: UnverifiedTransaction, checkLowS: bool, chainId: Option<U64>, allowEmptySignature: bool,
    keyText: KeyError -> string)
    requires VerifyBasic(tx, checkLowS, chainId, allowEmptySignature, keyText).Ok?
    ensures VerifyBasic(tx, false, chainId, allowEmptySignature, keyText).Ok?
    ensures VerifyBasic(tx, checkLowS, chainId, true, keyText).Ok?
  {
  }

  // ---------------------------------------------------------------------------
  // The signature stage

  /** The signature library, which this model leaves abstract: recovery of the
      public key over the transaction's signing hash, the Keccak-256 address of a
      public key, and the `Display` of its errors. */
  datatype Crypto = Crypto(
    recoverPublic: UnverifiedTransaction -> Result<Public, KeyError>,
    publicToAddress: Public -> Address,
    keyText: KeyError -> string)

  /** `verify_signature`: the sentinel sender for an unsigned transaction, the
      recovered key and its address otherwise. */
  function VerifySignature(b: BasicVerifiedTransaction, crypto: Crypto): (r: Result<VerifiedTransaction, Error>)
    ensures r.Ok? ==> IntoUnverified(r.value) == BasicVerified.Deref(b)
    ensures b.transaction.isUnsigned ==> r == Ok(VerifiedTransaction(b.transaction, UNSIGNED_SENDER, None))
    ensures !b.transaction.isUnsigned ==>
      match crypto.recoverPublic(b.transaction)
      case Ok(k) => r == Ok(VerifiedTransaction(b.transaction, crypto.publicToAddress(k), Some(k)))
      case Err(e) => r == Err(FromKeyError(e, crypto.keyText))
  {
    if b.transaction.isUnsigned then
      Ok(VerifiedTransaction(b.transaction, UNSIGNED_SENDER, None))
    else
      match crypto.recoverPublic(b.transaction)
      case Err(e) => Err(FromKeyError(e, crypto.keyText))
      case Ok(public) =>
        var sender := crypto.publicToAddress(public);
        Ok(VerifiedTransaction(b.transaction, sender, Some(public)))
  }

  /** A verified transaction whose sender and key are the ones its signature
      attests: the sentinel for an unsigned one, the recovered key otherwise. */
  predicate Attested(v: VerifiedTransaction, crypto: Crypto) {
    if v.transaction.isUnsigned then
      v.sender == UNSIGNED_SENDER && v.public == None
    else
      crypto.recoverPublic(v.transaction).Ok?
      && v.public == Some(crypto.recoverPublic(v.transaction).value)
      && v.sender == crypto.publicToAddress(v.public.value)
  }

  /** `verify_signature` accepts with `v` exactly when `v` wraps the same
      transaction and is attested by its signature; it fails only with
      `InvalidSignature`, and never on an unsigned transaction. */
  lemma VerifySignatureIffAttested(b: BasicVerifiedTransaction, crypto: Crypto, v: VerifiedTransaction)
    ensures VerifySignature(b, crypto) == Ok(v) <==> v.transaction == b.transaction && Attested(v, crypto)
    ensures VerifySignature(b, crypto).Err? ==>
      !b.transaction.isUnsigned && VerifySignature(b, crypto).error.InvalidSignature?
  {
  }

  /** The public key is absent exactly for unsigned transactions, whose sender is
      then the sentinel. */
  lemma PublicAbsentIffUnsigned(b: BasicVerifiedTransaction, crypto: Crypto)
    requires VerifySignature(b, crypto).Ok?
    ensures var v := VerifySignature(b, crypto).value;
      (v.public == None <==> b.transaction.isUnsigned)
      && (v.public == None ==> v.sender == UNSIGNED_SENDER)
  {
  }

  /** The sentinel sender marks exactly the unsigned transactions, provided no
      recovered key's address is the sentinel. */
  lemma SentinelIffUnsigned(b: BasicVerifiedTransaction, crypto: Crypto)
    requires VerifySignature(b, crypto).Ok?
    requires forall k :: crypto.publicToAddress(k) != UNSIGNED_SENDER
    ensures var v := VerifySignature(b, crypto).value;
      v.sender == UNSIGNED_SENDER <==> v.public == None
  {
  }
}
