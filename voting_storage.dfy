/** The browser-persistent secret store read and written through
    `saveVoteData` / `getVoteData`: one `{vote, salt}` record per
    (registry address, dispute id, voter address) key. Its implementation is
    not part of this model; it is modelled by its interface, as a map. */
module VotingStorage {
  import opened Js

  datatype StoreKey = StoreKey(contract: string, disputeId: string, voter: string)

  datatype VoteData = VoteData(vote: int, salt: int)

  class VoteStore {
    var entries: map<StoreKey, VoteData>

    /** An empty store: every lookup is "not found". */
    constructor ()
      ensures entries == map[]
      ensures forall c, d, v :: GetVoteData(c, d, v) == None
    {
      entries := map[];
    }

    /** `saveVoteData`: overwrite the entry at one key, keep all others. */
    method SaveVoteData(contract: string, disputeId: string, voter: string, vote: int, salt: int)
      modifies this
      ensures entries == old(entries)[StoreKey(contract, disputeId, voter) := VoteData(vote, salt)]
      ensures GetVoteData(contract, disputeId, voter) == Some(VoteData(vote, salt))
      ensures forall k :: k in old(entries) && k != StoreKey(contract, disputeId, voter) ==>
                k in entries && entries[k] == old(entries)[k]
    {
      entries := entries[StoreKey(contract, disputeId, voter) := VoteData(vote, salt)];
    }

    /** `getVoteData`: the stored record, or None for a key never written. */
    function GetVoteData(contract: string, disputeId: string, voter: string): Option<VoteData>
      reads this
    {
      var k := StoreKey(contract, disputeId, voter);
      if k in entries then Some(entries[k]) else None
    }
  }
}
