/** usePayDispute: pay a dispute's fee in the stake token. The hook approves
    the amount when the allowance is short, polls until the allowance shows
    (at most five reads), then pays, and succeeds only on a receipt with
    status 1. */
module PayDispute {
  import opened Js
  import opened Remote

  /** How many times the allowance is re-read after an approval. */
  const MAX_POLLS: nat := 5

  /** The k-th re-read ends the poll: it threw, or showed enough allowance. */
  predicate PollStops(amount: int, pollRead: nat -> Outcome<int>, k: nat) {
    pollRead(k).Threw? || pollRead(k).value >= amount
  }

  /** How many re-reads the poll makes from the k-th on: up to and including
      the first that ends it, and never past the fifth. */
  function PollLengthFrom(amount: int, pollRead: nat -> Outcome<int>, k: nat): nat
    requires k < MAX_POLLS
    decreases MAX_POLLS - k
  {
    if PollStops(amount, pollRead, k) || k == MAX_POLLS - 1 then k + 1
    else PollLengthFrom(amount, pollRead, k + 1)
  }

  function PollLength(amount: int, pollRead: nat -> Outcome<int>): nat {
    PollLengthFrom(amount, pollRead, 0)
  }

  /** The poll makes between one and five reads; every read before the last
      was short, and unless the bound was reached the last one ended it. */
  lemma {:induction false} PollLengthFromBounds(amount: int, pollRead: nat -> Outcome<int>, k: nat)
    requires k < MAX_POLLS
    ensures var n := PollLengthFrom(amount, pollRead, k);
            && k + 1 <= n <= MAX_POLLS
            && (forall j :: k <= j < n - 1 ==> !PollStops(amount, pollRead, j))
            && (n < MAX_POLLS ==> PollStops(amount, pollRead, n - 1))
    decreases MAX_POLLS - k
  {
    if !(PollStops(amount, pollRead, k) || k == MAX_POLLS - 1) {
      PollLengthFromBounds(amount, pollRead, k + 1);
    }
  }

  lemma PollLengthBounds(amount: int, pollRead: nat -> Outcome<int>)
    ensures var n := PollLength(amount, pollRead);
            && 1 <= n <= MAX_POLLS
            && (forall j :: 0 <= j < n - 1 ==> pollRead(j).Done? && pollRead(j).value < amount)
            && (n < MAX_POLLS ==> PollStops(amount, pollRead, n - 1))
  {
    PollLengthFromBounds(amount, pollRead, 0);
  }

  /** The poll ends exactly at the first read that threw or showed enough
      allowance, when that comes within the bound. */
  lemma {:induction false} PollStopsAtFirst(amount: int, pollRead: nat -> Outcome<int>, first: nat)
    requires first < MAX_POLLS && PollStops(amount, pollRead, first)
    requires forall j :: 0 <= j < first ==> !PollStops(amount, pollRead, j)
    ensures PollLength(amount, pollRead) == first + 1
  {
    var k := first;
    while k > 0
      invariant 0 <= k <= first
      invariant PollLengthFrom(amount, pollRead, k) == first + 1
    {
      k := k - 1;
    }
  }

  /** The polling loop after an approval. `pollRead(k)` is the answer to the
      k-th re-read (from 0). Returns how many reads were made and the error
      of a read that threw, if one did. */
  method PollAllowance(amount: int, pollRead: nat -> Outcome<int>) returns (readCount: nat, failure: Option<ErrorInfo>)
    // At least one read and at most five.
    ensures 1 <= readCount <= MAX_POLLS
    // Every read before the last returned an allowance still below the amount.
    ensures forall k :: 0 <= k < readCount - 1 ==> pollRead(k).Done? && pollRead(k).value < amount
    // The loop stops at the first read that threw or showed enough allowance,
    // or after the fifth read.
    ensures readCount < MAX_POLLS ==> PollStops(amount, pollRead, readCount - 1)
    ensures readCount == PollLength(amount, pollRead)
    ensures failure.Some? <==> pollRead(readCount - 1).Threw?
    ensures failure.Some? ==> failure.value == pollRead(readCount - 1).error
  {
    var retries := 0;
    readCount, failure := 0, None;
    while retries < MAX_POLLS
      invariant 0 <= retries <= MAX_POLLS
      invariant readCount == retries
      invariant forall k :: 0 <= k < retries ==> pollRead(k).Done? && pollRead(k).value < amount
      invariant retries < MAX_POLLS ==> PollLength(amount, pollRead) == PollLengthFrom(amount, pollRead, retries)
      invariant retries == MAX_POLLS ==> PollLength(amount, pollRead) == MAX_POLLS
      decreases MAX_POLLS - retries
    {
      var updated := pollRead(retries);
      readCount := readCount + 1;
      if updated.Threw? {
        return readCount, Some(updated.error);
      }
      if updated.value >= amount {
        return;
      }
      retries := retries + 1;
    }
  }

  class PayDisputeHook {
    /** Whether useSliceContract() returned a contract. */
    const hasContract: bool
    const address: Option<string>
    const hasSigner: bool
    var isPaying: bool

    constructor (hasContract: bool, address: Option<string>, hasSigner: bool)
      ensures this.hasContract == hasContract && this.address == address && this.hasSigner == hasSigner
      ensures !isPaying
    {
      this.hasContract := hasContract;
      this.address := address;
      this.hasSigner := hasSigner;
      isPaying := false;
    }

    /** payDispute. `amount` is `parseUnits(amountStr, 6)` (which throws on
        a malformed amount); `allowanceRead` the first allowance read;
        `approve` the approval transaction; `pollRead` the re-reads; `pay`
        the payDispute transaction. */
    method PayDispute(disputeId: IdArg, amount: Outcome<int>, allowanceRead: Outcome<int>, approve: Tx,
                      pollRead: nat -> Outcome<int>, pay: Tx)
      returns (ok: bool, calls: seq<Call>)
      modifies this
      // Not connected: false, nothing read or sent.
      ensures !hasContract || !Truthy(address) || !hasSigner ==>
                !ok && calls == [] && isPaying == old(isPaying)
      ensures hasContract && Truthy(address) && hasSigner ==> !isPaying
      // parseUnits threw: false, nothing read or sent.
      ensures hasContract && Truthy(address) && hasSigner && amount.Threw? ==> !ok && calls == []
      // The first allowance read threw: false after that one read.
      ensures hasContract && Truthy(address) && hasSigner && amount.Done? && allowanceRead.Threw? ==>
                !ok && calls == [ReadAllowance]
      // The approval threw: false, no polling and no payment.
      ensures hasContract && Truthy(address) && hasSigner && amount.Done? && allowanceRead.Done?
              && allowanceRead.value < amount.value && !TxReturned(approve) ==>
                !ok && calls == [ReadAllowance] + TxCalls(SendApprove(amount.value), approve)
      // True only on a payDispute receipt with status 1.
      ensures ok ==> TxSucceeded(pay) && |calls| >= 2 && calls[|calls| - 2..] == TxCalls(SendPayDispute(disputeId), pay)
      // An approval is only for the amount, and only when the allowance was below it.
      ensures forall c :: c in calls && c.SendApprove? ==>
                && amount.Done? && allowanceRead.Done?
                && c.amount == amount.value && allowanceRead.value < amount.value
      // With enough allowance already: no approval, no polling, straight to paying.
      ensures hasContract && Truthy(address) && hasSigner && amount.Done? && allowanceRead.Done?
              && allowanceRead.value >= amount.value ==>
                && calls == [ReadAllowance] + TxCalls(SendPayDispute(disputeId), pay)
                && (ok <==> TxSucceeded(pay))
      // A short allowance: approve, poll, and pay whether or not the poll saw the allowance.
      ensures hasContract && Truthy(address) && hasSigner && amount.Done? && allowanceRead.Done?
              && allowanceRead.value < amount.value && TxReturned(approve) ==>
                var n := PollLength(amount.value, pollRead);
                && calls == [ReadAllowance] + TxCalls(SendApprove(amount.value), approve)
                            + seq(n, _ => ReadAllowance)
                            + (if pollRead(n - 1).Threw? then [] else TxCalls(SendPayDispute(disputeId), pay))
                && (ok <==> pollRead(n - 1).Done? && TxSucceeded(pay))
    {
      ok, calls := false, [];
      if !hasContract || !Truthy(address) || !hasSigner {
        return;
      }
      isPaying := true;
      if amount.Threw? {
        isPaying := false;
        return;
      }
      var amountToApprove := amount.value;
      calls := calls + [ReadAllowance];
      if allowanceRead.Threw? {
        isPaying := false;
        return;
      }
      if allowanceRead.value < amountToApprove {
        calls := calls + TxCalls(SendApprove(amountToApprove), approve);
        if !TxReturned(approve) {
          isPaying := false;
          return;
        }
        var readCount, failure := PollAllowance(amountToApprove, pollRead);
        calls := calls + seq(readCount, _ => ReadAllowance);
        if failure.Some? {
          isPaying := false;
          return;
        }
      }
      calls := calls + TxCalls(SendPayDispute(disputeId), pay);
      ok := TxSucceeded(pay);
      isPaying := false;
    }
  }
}
