/** useExecuteRuling: send executeRuling for a dispute, report success only
    on a receipt with status 1, and turn every failure into a notice that
    singles out the registry's "Wrong phase" revert. */
module ExecuteRuling {
  import opened Js
  import opened Remote

  const WRONG_PHASE := "Wrong phase"
  // Written as two sentences joined, so that its first character is visible to the verifier.
  const NOT_IN_REVEAL_NOTICE := "Cannot execute yet." + " Dispute is not in Reveal phase."
  const FAILURE_PREFIX := "Execution failed: "
  const SUCCESS_NOTICE := "Ruling executed successfully!"
  const CONNECT_NOTICE := "Please connect your wallet"
  const ON_CHAIN_FAILURE := "Transaction failed on-chain"

  /** The notice of the catch block for the error `err`. */
  function FailureNotice(err: ErrorInfo): (r: string)
    // Either the phase notice or "Execution failed: " and a non-empty text.
    ensures r == NOT_IN_REVEAL_NOTICE || (StartsWith(r, FAILURE_PREFIX) && |r| > |FAILURE_PREFIX|)
  {
    var msg := ReasonOrMessage(err);
    if Contains(msg, WRONG_PHASE) then NOT_IN_REVEAL_NOTICE else FAILURE_PREFIX + msg
  }

  /** No "Execution failed: ..." notice is the not-in-Reveal notice: they
      differ in their first character. */
  lemma PrefixedNoticeDiffers(msg: string)
    ensures FAILURE_PREFIX + msg != NOT_IN_REVEAL_NOTICE
  {
    assert NOT_IN_REVEAL_NOTICE[0] == 'C';
    assert (FAILURE_PREFIX + msg)[0] == 'E';
  }

  /** The fixed not-in-Reveal notice is given exactly when the error's text
      (reason, else message, else "Unknown error") contains "Wrong phase";
      any other error is reported with its text. */
  lemma FailureNoticeClassifies(err: ErrorInfo)
    ensures FailureNotice(err) == NOT_IN_REVEAL_NOTICE <==> Contains(ReasonOrMessage(err), WRONG_PHASE)
    ensures !Contains(ReasonOrMessage(err), WRONG_PHASE) ==> FailureNotice(err) == FAILURE_PREFIX + ReasonOrMessage(err)
  {
    PrefixedNoticeDiffers(ReasonOrMessage(err));
  }

  /** A receipt with a status other than 1 is reported as a plain failure,
      never as a phase error. */
  lemma RevertedReceiptNotice()
    ensures FailureNotice(PlainError(ON_CHAIN_FAILURE)) == FAILURE_PREFIX + ON_CHAIN_FAILURE
  {
    NotContainsWithoutFirst(ON_CHAIN_FAILURE, WRONG_PHASE);
  }

  /** The error the try block ends with, if any: a thrown send or wait, or
      the Error raised for a status other than 1. */
  function ExecutionError(tx: Tx): (r: Option<ErrorInfo>)
    ensures r.None? <==> TxSucceeded(tx)
  {
    if TxError(tx).Some? then TxError(tx)
    else if tx.wait.value != 1 then Some(PlainError(ON_CHAIN_FAILURE))
    else None
  }

  class ExecuteRulingHook {
    /** Whether useSliceContract() returned a contract. */
    const hasContract: bool
    const address: Option<string>
    var isExecuting: bool

    constructor (hasContract: bool, address: Option<string>)
      ensures this.hasContract == hasContract && this.address == address && !isExecuting
    {
      this.hasContract := hasContract;
      this.address := address;
      isExecuting := false;
    }

    /** executeRuling. `executed` is the `true` result; false stands for
        `null`. `notice` is the toast shown. */
    method ExecuteRuling(disputeId: IdArg, tx: Tx) returns (executed: bool, notice: string, calls: seq<Call>)
      modifies this
      // Not connected: null, and no transaction.
      ensures !hasContract || !Truthy(address) ==>
                !executed && notice == CONNECT_NOTICE && calls == [] && isExecuting == old(isExecuting)
      ensures hasContract && Truthy(address) ==>
                && !isExecuting
                && calls == TxCalls(SendExecuteRuling(disputeId), tx)
                // True exactly on a receipt with status 1.
                && (executed <==> TxSucceeded(tx))
                && (executed ==> notice == SUCCESS_NOTICE)
                && (!executed ==> notice == FailureNotice(ExecutionError(tx).value))
    {
      calls := [];
      if !hasContract || !Truthy(address) {
        return false, CONNECT_NOTICE, calls;
      }
      isExecuting := true;
      calls := calls + [SendExecuteRuling(disputeId)];
      if tx.send.Done? {
        calls := calls + [WaitReceipt];
      }
      var err := ExecutionError(tx);
      if err.None? {
        isExecuting := false;
        return true, SUCCESS_NOTICE, calls;
      }
      executed, notice := false, FailureNotice(err.value);
      isExecuting := false;
    }
  }
}
