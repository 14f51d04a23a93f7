/** useSliceVoting: the commit and reveal transactions of one juror, with
    the secret (vote, salt) kept in the vote store between the two. */
module SliceVoting {
  import opened Js
  import opened VotingUtils
  import opened VotingStorage
  import opened Remote

  /** The calls a commit issues once the commitment is computed: the send,
      then the receipt wait when a public client exists and the send returned. */
  function CommitCalls(disputeId: string, commitment: Bytes32, hasClient: bool, tx: Tx): (r: seq<Call>)
    ensures 1 <= |r| <= 2 && r[0] == SendCommit(disputeId, commitment)
    ensures |r| == 2 <==> tx.send.Done? && hasClient
    ensures |r| == 2 ==> r[1] == WaitReceipt
  {
    [SendCommit(disputeId, commitment)] + (if tx.send.Done? && hasClient then [WaitReceipt] else [])
  }

  /** The transaction layer let the (commit or reveal) transaction through:
      the send returned and, when a client exists, so did the wait. The
      receipt status is not looked at. */
  predicate Confirmed(hasClient: bool, tx: Tx)
    // With a client this is exactly "the transaction returned"; without one
    // only the send is awaited.
    ensures hasClient ==> (Confirmed(hasClient, tx) <==> TxReturned(tx))
    ensures !hasClient ==> (Confirmed(hasClient, tx) <==> tx.send.Done?)
  {
    tx.send.Done? && (hasClient ==> tx.wait.Done?)
  }

  class SliceVotingHook {
    /** SLICE_ADDRESS, the registry deployment the secrets are keyed by. */
    const sliceAddress: string
    /** The connected account (`useAccount().address`). */
    const address: Option<string>
    /** Whether `usePublicClient()` returned a client. */
    const hasClient: bool
    const store: VoteStore
    var isProcessing: bool

    constructor (sliceAddress: string, address: Option<string>, hasClient: bool, store: VoteStore)
      ensures this.sliceAddress == sliceAddress && this.address == address
      ensures this.hasClient == hasClient && this.store == store
      ensures !isProcessing
    {
      this.sliceAddress := sliceAddress;
      this.address := address;
      this.hasClient := hasClient;
      this.store := store;
      isProcessing := false;
    }

    /** commitVote: draw a salt, send the commitment, and only once the send
        (and the receipt wait) returned save the (vote, salt) secret. */
    method CommitVote(disputeId: string, vote: int, random: Bytes32, keccak: Keccak, tx: Tx)
      returns (ok: bool, calls: seq<Call>)
      modifies this, store
      // Without an address: nothing is drawn, sent or saved.
      ensures !Truthy(address) ==>
                && !ok && calls == [] && isProcessing == old(isProcessing)
                && store.entries == old(store.entries)
      ensures Truthy(address) ==> !isProcessing
      ensures Truthy(address) ==>
                var salt := BigEndian(random[..SALT_BYTES]);
                var commitment := CalculateCommitment(keccak, vote, salt);
                // The submitted commitment is computed from the very (vote, salt) later saved.
                && calls == (if commitment.None? then [] else CommitCalls(disputeId, commitment.value, hasClient, tx))
                && (ok <==> commitment.Some? && Confirmed(hasClient, tx))
                && store.entries ==
                   if ok then old(store.entries)[StoreKey(sliceAddress, disputeId, address.value) := VoteData(vote, salt)]
                   else old(store.entries)
    {
      calls := [];
      if !Truthy(address) {
        return false, calls;
      }
      isProcessing := true;
      var salt := GenerateSalt(random);
      var commitment := CalculateCommitment(keccak, vote, salt);
      if commitment.None? {
        // calculateCommitment threw inside the try block.
        isProcessing := false;
        return false, calls;
      }
      // The send, then the receipt wait when there is a client; either may throw.
      calls := CommitCalls(disputeId, commitment.value, hasClient, tx);
      if !Confirmed(hasClient, tx) {
        isProcessing := false;
        return false, calls;
      }
      store.SaveVoteData(sliceAddress, disputeId, address.value, vote, salt);
      isProcessing := false;
      ok := true;
    }

    /** revealVote: look the secret up and submit exactly it; with no stored
        secret, fail before any transaction. The store is only read. */
    method RevealVote(disputeId: string, tx: Tx) returns (ok: bool, calls: seq<Call>)
      modifies this
      ensures !Truthy(address) ==> !ok && calls == [] && isProcessing == old(isProcessing)
      ensures Truthy(address) ==> !isProcessing
      ensures Truthy(address) ==>
                var stored := store.GetVoteData(sliceAddress, disputeId, address.value);
                && (stored.None? ==> !ok && calls == [])
                && (stored.Some? ==>
                      && calls == [SendReveal(disputeId, stored.value.vote, stored.value.salt)]
                                  + (if tx.send.Done? && hasClient then [WaitReceipt] else [])
                      && (ok <==> Confirmed(hasClient, tx)))
    {
      calls := [];
      if !Truthy(address) {
        return false, calls;
      }
      isProcessing := true;
      var stored := store.GetVoteData(sliceAddress, disputeId, address.value);
      if stored.None? {
        // throws "No local vote data found for this dispute deployment."
        isProcessing := false;
        return false, calls;
      }
      calls := calls + [SendReveal(disputeId, stored.value.vote, stored.value.salt)];
      if tx.send.Threw? {
        isProcessing := false;
        return false, calls;
      }
      if hasClient {
        calls := calls + [WaitReceipt];
        if tx.wait.Threw? {
          isProcessing := false;
          return false, calls;
        }
      }
      isProcessing := false;
      ok := true;
    }
  }

  /** Reveal integrity: after a commit that went through, a reveal of the
      same dispute by the same hook submits a (vote, salt) whose commitment is
      exactly the one that was committed. */
  method CommitThenReveal(hook: SliceVotingHook, disputeId: string, vote: int, random: Bytes32,
                          keccak: Keccak, commitTx: Tx, revealTx: Tx)
    returns (committed: seq<Call>, revealed: seq<Call>)
    requires Truthy(hook.address)
    requires 0 <= vote < UINT256_BOUND
    requires Confirmed(hook.hasClient, commitTx)
    modifies hook, hook.store
    ensures |committed| > 0 && |revealed| > 0
    ensures committed[0].SendCommit? && revealed[0].SendReveal?
    ensures revealed[0].vote == vote
    ensures CalculateCommitment(keccak, revealed[0].vote, revealed[0].salt).Some?
    ensures CalculateCommitment(keccak, revealed[0].vote, revealed[0].salt).value == committed[0].commitment
  {
    GeneratedSaltEncodes(keccak, vote, random);
    var ok;
    ok, committed := hook.CommitVote(disputeId, vote, random, keccak, commitTx);
    ok, revealed := hook.RevealVote(disputeId, revealTx);
  }
}
