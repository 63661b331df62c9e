/** The transaction error taxonomy: the rejections the verifiers raise and the
    ones the transaction pool raises with the same vocabulary. */
module TxError {
  import opened Wrappers
  import opened Primitives
  import opened Rlp
  import opened Decimal

  /** `OutOfBounds<U256>`: a value and the bounds it broke. */
  datatype OutOfBounds = OutOfBounds(min: Option<U256>, max: Option<U256>, found: U256)

  datatype Error =
    | AlreadyImported
    | Old
    | TooCheapToReplace
    | LimitReached
    | InsufficientGasPrice(minimal: U256, got: U256)
    | InsufficientGas(minimal: U256, got: U256)
    | InsufficientBalance(balance: U256, cost: U256)
    | GasLimitExceeded(limit: U256, got: U256)
    | InvalidGasLimit(bounds: OutOfBounds)
    | SenderBanned
    | RecipientBanned
    | CodeBanned
    | InvalidChainId
    | NotAllowed
    | InvalidSignature(reason: string)
    | TooBig
    | InvalidRlp(reason: string)

  const SIGNATURE_PREFIX := "Transaction has invalid signature: "
  const RLP_PREFIX := "Transaction has invalid RLP structure: "

  /** A message of the form "<lead><first><separator><second>". */
  function TwoNumbers(lead: string, first: U256, separator: string, second: U256): (msg: string)
    ensures |msg| > |lead| && msg[..|lead|] == lead
  {
    lead + ToDecimal(first) + separator + ToDecimal(second)
  }

  /** The `Display` text of each variant; `boundsText` is the `Display` of
      `OutOfBounds`, which this model leaves abstract. */
  function Display(e: Error, boundsText: OutOfBounds -> string): (msg: string)
    ensures |msg| > 0
  {
    match e
    case AlreadyImported => "Already imported"
    case Old => "No longer valid"
    case TooCheapToReplace => "Gas price too low to replace"
    case LimitReached => "Transaction limit reached"
    case InsufficientGasPrice(minimal, got) =>
      TwoNumbers("Insufficient gas price. Min = ", minimal, ", Given = ", got)
    case InsufficientGas(minimal, got) =>
      TwoNumbers("Insufficient gas. Min = ", minimal, ", Given = ", got)
    case InsufficientBalance(balance, cost) =>
      TwoNumbers("Insufficient balance for transaction. Balance = ", balance, ", Cost = ", cost)
    case GasLimitExceeded(limit, got) =>
      TwoNumbers("Gas limit exceeded. Limit = ", limit, ", Given = ", got)
    case InvalidGasLimit(bounds) => "Invalid gas limit. " + boundsText(bounds)
    case SenderBanned => "Sender is temporarily banned."
    case RecipientBanned => "Recipient is temporarily banned."
    case CodeBanned => "Contract code is temporarily banned."
    case InvalidChainId => "Transaction of this chain ID is not allowed on this chain."
    case NotAllowed => "Sender does not have permissions to execute this type of transaction."
    case InvalidSignature(reason) => SIGNATURE_PREFIX + reason + "."
    case TooBig => "Transaction is too big."
    case InvalidRlp(reason) => RLP_PREFIX + reason + "."
  }

  /** `From<ethkey::Error>`: every signature-library error becomes `InvalidSignature`
      carrying that error's text (`keyText` is its `Display`). */
  function FromKeyError(err: KeyError, keyText: KeyError -> string): (e: Error)
    ensures e.InvalidSignature? && e.reason == keyText(err)
  {
    Error.InvalidSignature(keyText(err))
  }

  /** `From<rlp::DecoderError>`: every decoder error becomes `InvalidRlp` carrying
      that error's text (`decoderText` is its `Display`). */
  function FromDecoderError(err: DecoderError, decoderText: DecoderError -> string): (e: Error)
    ensures e.InvalidRlp? && e.reason == decoderText(err)
  {
    InvalidRlp(decoderText(err))
  }

  /** `error::Error::description`. */
  function Description(e: Error): (d: string)
    ensures d == "Transaction error"
  {
    "Transaction error"
  }

  /** Every variant has the same description. */
  lemma DescriptionIsUniform(e1: Error, e2: Error)
    ensures Description(e1) == Description(e2) == "Transaction error"
  {
  }

  /** The four threshold rejections, whose messages carry two numbers each. */
  predicate IsThreshold(e: Error) {
    e.InsufficientGasPrice? || e.InsufficientGas? || e.InsufficientBalance? || e.GasLimitExceeded?
  }

  /** The fixed text a threshold message starts with. */
  function ThresholdLead(e: Error): (lead: string)
    requires IsThreshold(e)
    ensures |lead| > 16
  {
    match e
    case InsufficientGasPrice(_, _) => "Insufficient gas price. Min = "
    case InsufficientGas(_, _) => "Insufficient gas. Min = "
    case InsufficientBalance(_, _) => "Insufficient balance for transaction. Balance = "
    case GasLimitExceeded(_, _) => "Gas limit exceeded. Limit = "
  }

  /** A threshold message shows both of its numbers: two threshold errors with the
      same message are the same error, variant and values alike. */
  lemma ThresholdMessagesDetermineValues(e1: Error, e2: Error, boundsText: OutOfBounds -> string)
    requires IsThreshold(e1) && IsThreshold(e2)
    requires Display(e1, boundsText) == Display(e2, boundsText)
    ensures e1 == e2
  {
    ThresholdLeadShown(e1, boundsText);
    ThresholdLeadShown(e2, boundsText);
    LeadsAgree(Display(e1, boundsText), e1, e2);
    match e1
    case InsufficientGasPrice(a, b) =>
      TwoNumbersReadBack("Insufficient gas price. Min = ", ", Given = ", a, b, e2.minimal, e2.got);
    case InsufficientGas(a, b) =>
      TwoNumbersReadBack("Insufficient gas. Min = ", ", Given = ", a, b, e2.minimal, e2.got);
    case InsufficientBalance(a, b) =>
      TwoNumbersReadBack("Insufficient balance for transaction. Balance = ", ", Cost = ", a, b, e2.balance, e2.cost);
    case GasLimitExceeded(a, b) =>
      TwoNumbersReadBack("Gas limit exceeded. Limit = ", ", Given = ", a, b, e2.limit, e2.got);
  }

  /** A threshold message starts with its variant's lead. */
  lemma ThresholdLeadShown(e: Error, boundsText: OutOfBounds -> string)
    requires IsThreshold(e)
    ensures |ThresholdLead(e)| < |Display(e, boundsText)|
    ensures Display(e, boundsText)[..|ThresholdLead(e)|] == ThresholdLead(e)
  {
  }

  /** Two threshold leads that are both a prefix of one message are the same lead. */
  lemma LeadsAgree(m: string, e1: Error, e2: Error)
    requires IsThreshold(e1) && IsThreshold(e2)
    requires |ThresholdLead(e1)| <= |m| && m[..|ThresholdLead(e1)|] == ThresholdLead(e1)
    requires |ThresholdLead(e2)| <= |m| && m[..|ThresholdLead(e2)|] == ThresholdLead(e2)
    ensures ThresholdLead(e1) == ThresholdLead(e2)
  {
    var l1, l2 := ThresholdLead(e1), ThresholdLead(e2);
    assert m[0] == l1[0] && m[13] == l1[13] && m[16] == l1[16] by {
      assert m[..|l1|][0] == l1[0] && m[..|l1|][13] == l1[13] && m[..|l1|][16] == l1[16];
    }
    assert m[0] == l2[0] && m[13] == l2[13] && m[16] == l2[16] by {
      assert m[..|l2|][0] == l2[0] && m[..|l2|][13] == l2[13] && m[..|l2|][16] == l2[16];
    }
  }

  /** The rejections the two verifiers raise. */
  predicate IsVerifierRejection(e: Error) {
    e.InvalidSignature? || e.InvalidRlp? || e.InvalidChainId?
  }

  /** The fixed text a verifier rejection's message starts with. */
  function RejectionLead(e: Error): (lead: string)
    requires IsVerifierRejection(e)
    ensures |lead| > 24
  {
    match e
    case InvalidSignature(_) => SIGNATURE_PREFIX
    case InvalidRlp(_) => RLP_PREFIX
    case InvalidChainId => "Transaction of this chain ID is not allowed on this chain."
  }

  lemma RejectionLeadShown(e: Error, boundsText: OutOfBounds -> string)
    requires IsVerifierRejection(e)
    ensures |RejectionLead(e)| <= |Display(e, boundsText)|
    ensures Display(e, boundsText)[..|RejectionLead(e)|] == RejectionLead(e)
    ensures !e.InvalidChainId? ==>
      Display(e, boundsText) == RejectionLead(e) + e.reason + "."
    ensures e.InvalidChainId? ==> Display(e, boundsText) == RejectionLead(e)
  {
  }

  /** A signature or RLP rejection's reason can be read back from its message,
      and the messages of signature, RLP and chain-id rejections never coincide. */
  lemma VerifierRejectionsReadBack(e1: Error, e2: Error, boundsText: OutOfBounds -> string)
    requires IsVerifierRejection(e1) && IsVerifierRejection(e2)
    requires Display(e1, boundsText) == Display(e2, boundsText)
    ensures e1 == e2
  {
    var m := Display(e1, boundsText);
    var l1, l2 := RejectionLead(e1), RejectionLead(e2);
    RejectionLeadShown(e1, boundsText);
    RejectionLeadShown(e2, boundsText);
    assert m[12] == l1[12] && m[24] == l1[24] by {
      assert m[..|l1|][12] == l1[12] && m[..|l1|][24] == l1[24];
    }
    assert m[12] == l2[12] && m[24] == l2[24] by {
      assert m[..|l2|][12] == l2[12] && m[..|l2|][24] == l2[24];
    }
    if !e1.InvalidChainId? {
      assert l1 == l2;
      assert e1.reason == m[|l1|..|m| - 1];
      assert e2.reason == m[|l2|..|m| - 1];
    }
  }
}
