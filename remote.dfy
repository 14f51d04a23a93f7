/** The remote services the client talks to, seen from the client: the
    dispute registry contract, the stake token contract, the wallet that sends
    transactions and the metadata store. Every remote answer is an input to the
    model (an `Outcome`: a value, or the error object the call threw), and every
    operation returns the `Call`s it issued, in order. */
module Remote {
  import opened Js

  /** The fields of a thrown error the client reads; "" stands for absent. */
  datatype ErrorInfo = ErrorInfo(reason: string, shortMessage: string, message: string)

  /** A remote call either returns a value or throws. */
  datatype Outcome<+T> = Done(value: T) | Threw(error: ErrorInfo)

  /** What happens to one transaction: the send (which yields a hash) and the
      wait for its receipt (which yields the receipt status: 1 on success,
      anything else when reverted). */
  datatype Tx = Tx(send: Outcome<()>, wait: Outcome<int>)

  /** A dispute id as the hooks receive it: `string | number`. */
  datatype IdArg = IdStr(s: string) | IdNum(n: int)

  /** JavaScript truthiness of a `string | number`: "" and 0 are falsy. */
  predicate IdTruthy(id: IdArg) {
    match id
    case IdStr(s) => s != ""
    case IdNum(n) => n != 0
  }

  /** The remote calls the client issues. */
  datatype Call =
    | ReadDisputeCount
    | ReadDispute(id: IdArg)
    | ReadAllowance
    | SendApprove(amount: int)
    | SendJoin(id: IdArg)
    | SendCommit(disputeId: string, commitment: seq<int>)
    | SendReveal(disputeId: string, vote: int, salt: int)
    | SendExecuteRuling(id: IdArg)
    | SendPayDispute(id: IdArg)
    | WaitReceipt
    | FetchMetadata(ipfsHash: string)

  /** The calls made for one transaction whose receipt is awaited: the send,
      then the wait unless the send threw. */
  function TxCalls(send: Call, tx: Tx): (r: seq<Call>)
    ensures 1 <= |r| <= 2 && r[0] == send
    ensures |r| == 2 <==> tx.send.Done?
    ensures |r| == 2 ==> r[1] == WaitReceipt
  {
    [send] + (if tx.send.Done? then [WaitReceipt] else [])
  }

  /** Both the send and the wait returned, whatever the receipt status. */
  predicate TxReturned(tx: Tx) {
    tx.send.Done? && tx.wait.Done?
  }

  /** Both returned and the receipt status is 1. */
  predicate TxSucceeded(tx: Tx) {
    TxReturned(tx) && tx.wait.value == 1
  }

  /** The error a transaction threw, or None when it returned. */
  function TxError(tx: Tx): Option<ErrorInfo> {
    if tx.send.Threw? then Some(tx.send.error)
    else if tx.wait.Threw? then Some(tx.wait.error)
    else None
  }

  /** `err.reason || err.message || "Unknown error"`. */
  function ReasonOrMessage(err: ErrorInfo): (r: string)
    ensures r != ""
    ensures r == err.reason || r == err.message || r == "Unknown error"
    ensures err.reason != "" ==> r == err.reason
    ensures err.reason == "" && err.message != "" ==> r == err.message
  {
    OrElse(err.reason, OrElse(err.message, "Unknown error"))
  }

  /** The object of `new Error(message)`. */
  function PlainError(message: string): ErrorInfo {
    ErrorInfo("", "", message)
  }
}
