/** useReveal: the phase flags of the reveal page, derived from the loaded
    dispute's status code, and whether this device holds the secret needed to
    reveal. */
module Reveal {
  import opened Js
  import opened Remote
  import opened VotingStorage
  import opened SliceVoting
  import opened GetDispute

  /** Status code of the reveal phase; below it is too early, above it finished. */
  const REVEAL_STATUS: int := 2

  datatype StatusFlags = StatusFlags(isTooEarly: bool, isRevealOpen: bool, isFinished: bool)

  /** The `status` object of useReveal. */
  function Flags(dispute: Option<DisputeData>): (r: StatusFlags)
    ensures dispute.None? ==> r == StatusFlags(true, false, false)
    ensures dispute.Some? ==>
              && (r.isTooEarly <==> dispute.value.status < REVEAL_STATUS)
              && (r.isRevealOpen <==> dispute.value.status == REVEAL_STATUS)
              && (r.isFinished <==> dispute.value.status > REVEAL_STATUS)
  {
    match dispute
    case None => StatusFlags(true, false, false)
    case Some(d) => StatusFlags(d.status < REVEAL_STATUS, d.status == REVEAL_STATUS, d.status > REVEAL_STATUS)
  }

  function Count(b: bool): nat {
    if b then 1 else 0
  }

  /** Whatever is loaded, exactly one of the three flags holds. */
  lemma ExactlyOneFlag(dispute: Option<DisputeData>)
    ensures var f := Flags(dispute); Count(f.isTooEarly) + Count(f.isRevealOpen) + Count(f.isFinished) == 1
  {
  }

  class RevealHook {
    const disputeId: string
    /** The address of the connect provider (`useConnect().address`), which is
        not necessarily the account the voting hook signs with. */
    const address: Option<string>
    const voting: SliceVotingHook
    var localVote: Option<int>
    var hasLocalData: bool

    constructor (disputeId: string, address: Option<string>, voting: SliceVotingHook)
      ensures this.disputeId == disputeId && this.address == address && this.voting == voting
      ensures localVote == None && !hasLocalData
    {
      this.disputeId := disputeId;
      this.address := address;
      this.voting := voting;
      localVote := None;
      hasLocalData := false;
    }

    /** The effect that looks the local secret up. */
    method LoadLocalData()
      modifies this`localVote, this`hasLocalData
      // Without an address both fields are left as they were.
      ensures !Truthy(address) ==> localVote == old(localVote) && hasLocalData == old(hasLocalData)
      ensures Truthy(address) ==>
                var stored := voting.store.GetVoteData(voting.sliceAddress, disputeId, address.value);
                && (hasLocalData <==> stored.Some?)
                && (stored.Some? ==> localVote == Some(stored.value.vote))
                && (stored.None? ==> localVote == old(localVote))
    {
      if Truthy(address) {
        var stored := voting.store.GetVoteData(voting.sliceAddress, disputeId, address.value);
        if stored.Some? {
          localVote := Some(stored.value.vote);
          hasLocalData := true;
        } else {
          hasLocalData := false;
        }
      }
    }

    /** The exposed `revealVote`: always reveals this hook's dispute. */
    method RevealVote(tx: Tx) returns (ok: bool, calls: seq<Call>)
      modifies voting
      ensures forall c :: c in calls && c.SendReveal? ==> c.disputeId == disputeId
      ensures ok ==>
                && Truthy(voting.address)
                && var stored := voting.store.GetVoteData(voting.sliceAddress, disputeId, voting.address.value);
                && stored.Some?
                && |calls| > 0 && calls[0] == SendReveal(disputeId, stored.value.vote, stored.value.salt)
    {
      ok, calls := voting.RevealVote(disputeId, tx);
    }
  }
}
