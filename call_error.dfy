/** `CallError`, the result of executing a transaction on request. The virtual
    machine's error `V` and the executive's error `X` are foreign types whose texts
    are passed in. */
module CallErrors {

  datatype CallError<V, X> =
    /** The transaction is not in the chain. */
    | TransactionNotFound
    /** The state of the requested block was pruned. */
    | StatePruned
    /** No amount of gas avoided an exception. */
    | Exceptional(vmError: V)
    /** The stored state is corrupt. */
    | StateCorrupt
    /** Executing failed. */
    | Execution(executionError: X)

  /** `From<ExecutionError>`. */
  function FromExecution<V, X>(error: X): (c: CallError<V, X>)
    ensures c.Execution? && c.executionError == error
  {
    Execution(error)
  }

  const WRAP_PREFIX := "Transaction execution error ("
  const WRAP_SUFFIX := ")."

  /** The inner message `fmt` computes before wrapping it. */
  function Message<V, X>(c: CallError<V, X>, vmText: V -> string, executionText: X -> string): (m: string)
    ensures c.TransactionNotFound? ==> m == "Transaction couldn't be found in the chain"
    ensures c.StatePruned? ==> m == "Couldn't find the transaction block's state in the chain"
    ensures c.StateCorrupt? ==> m == "Stored state found to be corrupted."
    ensures c.Execution? ==> m == executionText(c.executionError)
    ensures c.Exceptional? ==> |m| == 14 + |vmText(c.vmError)| + 27 && m[14..|m| - 27] == vmText(c.vmError)
  {
    match c
    case TransactionNotFound => "Transaction couldn't be found in the chain"
    case StatePruned => "Couldn't find the transaction block's state in the chain"
    case Exceptional(e) => "An exception (" + vmText(e) + ") happened in the execution"
    case StateCorrupt => "Stored state found to be corrupted."
    case Execution(e) => executionText(e)
  }

  /** `Display::fmt`: the inner message inside the fixed wrapper. */
  function Display<V, X>(c: CallError<V, X>, vmText: V -> string, executionText: X -> string): (text: string)
    ensures |text| >= |WRAP_PREFIX| + |WRAP_SUFFIX|
    ensures text[..|WRAP_PREFIX|] == WRAP_PREFIX
    ensures text[|text| - |WRAP_SUFFIX|..] == WRAP_SUFFIX
    ensures Unwrap(text) == Message(c, vmText, executionText)
  {
    WRAP_PREFIX + Message(c, vmText, executionText) + WRAP_SUFFIX
  }

  /** The inner message of a wrapped text. */
  function Unwrap(text: string): string
    requires |text| >= |WRAP_PREFIX| + |WRAP_SUFFIX|
  {
    text[|WRAP_PREFIX|..|text| - |WRAP_SUFFIX|]
  }

  /** Two call errors render alike exactly when their inner messages are alike. */
  lemma DisplayInjectiveOnMessages<V, X>(
    c1: CallError<V, X>, c2: CallError<V, X>, vmText: V -> string, executionText: X -> string)
    ensures Display(c1, vmText, executionText) == Display(c2, vmText, executionText) <==>
      Message(c1, vmText, executionText) == Message(c2, vmText, executionText)
  {
    if Display(c1, vmText, executionText) == Display(c2, vmText, executionText) {
      assert Unwrap(Display(c1, vmText, executionText)) == Unwrap(Display(c2, vmText, executionText));
    }
  }

  /** An execution error is shown through its own text, and an exceptional one
      inside "An exception (...) happened in the execution". */
  lemma ForeignTextsShown<V, X>(v: V, x: X, vmText: V -> string, executionText: X -> string)
    ensures Unwrap(Display(FromExecution<V, X>(x), vmText, executionText)) == executionText(x)
    ensures Unwrap(Display(CallError<V, X>.Exceptional(v), vmText, executionText)) ==
      "An exception (" + vmText(v) + ") happened in the execution"
  {
  }

  /** The three fixed messages tell their variants apart. */
  lemma FixedMessagesDistinct<V, X>(
    c1: CallError<V, X>, c2: CallError<V, X>, vmText: V -> string, executionText: X -> string)
    requires c1.TransactionNotFound? || c1.StatePruned? || c1.StateCorrupt?
    requires c2.TransactionNotFound? || c2.StatePruned? || c2.StateCorrupt?
    requires Display(c1, vmText, executionText) == Display(c2, vmText, executionText)
    ensures c1 == c2
  {
    DisplayInjectiveOnMessages(c1, c2, vmText, executionText);
    var m1, m2 := Message(c1, vmText, executionText), Message(c2, vmText, executionText);
    assert m1[0] == m2[0] && |m1| == |m2|;
  }
}
