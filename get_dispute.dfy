/** useGetDispute: read one dispute record from the registry, fetch its
    metadata from the content-addressed store when the record points to any,
    and merge the two into the record the pages display. */
module GetDispute {
  import opened Js
  import opened Remote

  /** The registry's dispute struct, as the contract binding returns it. */
  datatype ChainDispute = ChainDispute(
    id: nat,
    claimer: string,
    defender: string,
    status: int,
    category: string,
    jurorsRequired: int,
    payDeadline: int,
    commitDeadline: int,
    revealDeadline: int,
    requiredStake: int,
    winner: string,
    ipfsHash: string)

  /** The JSON document of the metadata store; a missing field is None. */
  datatype Metadata = Metadata(title: Option<string>, description: Option<string>, evidence: Option<seq<string>>)

  /** `let metadata: any = {}`. */
  const NO_METADATA := Metadata(None, None, None)

  const DEFAULT_DESCRIPTION := "No description provided."

  /** The merged record (DisputeData). */
  datatype DisputeData = DisputeData(
    id: nat,
    claimer: string,
    defender: string,
    status: int,
    category: string,
    jurorsRequired: int,
    payDeadlineSeconds: int,
    commitDeadlineSeconds: int,
    revealDeadlineSeconds: int,
    requiredStake: int,
    winner: string,
    assignedJurors: seq<string>,
    title: string,
    description: string,
    evidence: seq<string>)

  /** The record built in fetchDispute: on-chain fields copied, off-chain
      fields from the metadata with `||` defaults. */
  function MapDispute(d: ChainDispute, m: Metadata): (r: DisputeData)
    // Every on-chain field is carried over unchanged; no juror is listed.
    ensures r.id == d.id && r.claimer == d.claimer && r.defender == d.defender
    ensures r.status == d.status && r.category == d.category && r.jurorsRequired == d.jurorsRequired
    ensures r.payDeadlineSeconds == d.payDeadline && r.commitDeadlineSeconds == d.commitDeadline
    ensures r.revealDeadlineSeconds == d.revealDeadline
    ensures r.requiredStake == d.requiredStake && r.winner == d.winner
    ensures r.assignedJurors == []
    // The displayed title and description are never blank.
    ensures r.title != "" && r.description != ""
    ensures Truthy(m.title) ==> r.title == m.title.value
    ensures !Truthy(m.title) ==> r.title == "Dispute #" + DecimalString(d.id)
    ensures Truthy(m.description) ==> r.description == m.description.value
    ensures !Truthy(m.description) ==> r.description == DEFAULT_DESCRIPTION
    ensures r.evidence == if m.evidence.Some? then m.evidence.value else []
  {
    DisputeData(
      d.id, d.claimer, d.defender, d.status, d.category, d.jurorsRequired,
      d.payDeadline, d.commitDeadline, d.revealDeadline, d.requiredStake, d.winner,
      [],
      if Truthy(m.title) then m.title.value else "Dispute #" + DecimalString(d.id),
      if Truthy(m.description) then m.description.value else DEFAULT_DESCRIPTION,
      if m.evidence.Some? then m.evidence.value else [])
  }

  /** Without a metadata pointer every off-chain field takes its default. */
  lemma MapDisputeDefaults(d: ChainDispute)
    ensures MapDispute(d, NO_METADATA).title == "Dispute #" + DecimalString(d.id)
    ensures MapDispute(d, NO_METADATA).description == DEFAULT_DESCRIPTION
    ensures MapDispute(d, NO_METADATA).evidence == []
  {
  }

  class GetDisputeHook {
    /** Whether useSliceContract() returned a contract. */
    const hasContract: bool
    const disputeId: IdArg
    var dispute: Option<DisputeData>
    var isLoading: bool

    constructor (hasContract: bool, disputeId: IdArg)
      ensures this.hasContract == hasContract && this.disputeId == disputeId
      ensures dispute == None && !isLoading
    {
      this.hasContract := hasContract;
      this.disputeId := disputeId;
      dispute := None;
      isLoading := false;
    }

    /** fetchDispute, given the registry's answer and the metadata store. */
    method FetchDispute(read: Outcome<ChainDispute>, fetchMetadata: string -> Outcome<Metadata>)
      returns (calls: seq<Call>)
      modifies this
      // No contract, or a falsy id ("" or 0): nothing is read, nothing changes.
      ensures !hasContract || !IdTruthy(disputeId) ==>
                calls == [] && dispute == old(dispute) && isLoading == old(isLoading)
      ensures hasContract && IdTruthy(disputeId) ==>
                && !isLoading
                && calls == [ReadDispute(disputeId)]
                            + (if read.Done? && read.value.ipfsHash != "" then [FetchMetadata(read.value.ipfsHash)] else [])
                // A failed read or metadata fetch keeps the previous record.
                && (read.Threw? ==> dispute == old(dispute))
                && (read.Done? && read.value.ipfsHash == "" ==> dispute == Some(MapDispute(read.value, NO_METADATA)))
                && (read.Done? && read.value.ipfsHash != "" ==>
                      dispute == match fetchMetadata(read.value.ipfsHash)
                                 case Threw(_) => old(dispute)
                                 case Done(m) => Some(MapDispute(read.value, m)))
    {
      calls := [];
      if !hasContract || !IdTruthy(disputeId) {
        return;
      }
      isLoading := true;
      calls := calls + [ReadDispute(disputeId)];
      if read.Threw? {
        isLoading := false;
        return;
      }
      var d := read.value;
      var metadata := NO_METADATA;
      if d.ipfsHash != "" {
        calls := calls + [FetchMetadata(d.ipfsHash)];
        var fetched := fetchMetadata(d.ipfsHash);
        if fetched.Threw? {
          isLoading := false;
          return;
        }
        metadata := fetched.value;
      }
      dispute := Some(MapDispute(d, metadata));
      isLoading := false;
    }
  }
}
