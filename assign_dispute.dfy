/** useAssignDispute: the matchmaker that scans the registry for a dispute
    open to jurors and picks one at random, and the join that approves the
    juror stake when needed and then joins. */
module AssignDispute {
  import opened Js
  import opened Remote

  /** The size of the batches the scan reads in. */
  const SCAN_BATCH_SIZE: nat := 5
  /** Status code of a dispute open to jurors (commit phase). */
  const OPEN_STATUS: int := 1

  /** The part of the registry's dispute struct the hook reads. */
  datatype DisputeRecord = DisputeRecord(status: int, jurorStake: int)

  /** The concatenation of a sequence of sequences. */
  function Flatten<T>(s: seq<seq<T>>): seq<T> {
    if s == [] then [] else Flatten(s[..|s| - 1]) + s[|s| - 1]
  }

  lemma FlattenAppend<T>(s: seq<seq<T>>, b: seq<T>)
    ensures Flatten(s + [b]) == Flatten(s) + b
  {
    assert (s + [b])[..|s|] == s;
  }

  function Min(a: int, b: int): int { if a <= b then a else b }

  /** processInBatches: apply `processor` to every item, `batchSize` items at
      a time, collecting the results in item order. The batches are returned
      so that their shape can be stated. */
  method ProcessInBatches<T, R>(items: seq<T>, batchSize: nat, processor: T -> R)
    returns (results: seq<R>, batches: seq<seq<T>>)
    // The original loop steps by batchSize, so with 0 and a non-empty list it
    // never ends; this excludes only that non-terminating input (the one
    // caller passes 5).
    requires batchSize > 0
    // One result per item, in order, each the processor's value on that item.
    ensures |results| == |items|
    ensures forall j :: 0 <= j < |items| ==> results[j] == processor(items[j])
    // The batches are consecutive slices that together are exactly the items:
    // each non-empty, none longer than batchSize, all but the last full.
    ensures Flatten(batches) == items
    ensures forall k :: 0 <= k < |batches| ==> 0 < |batches[k]| <= batchSize
    ensures forall k :: 0 <= k < |batches| - 1 ==> |batches[k]| == batchSize
  {
    results, batches := [], [];
    var i := 0;
    while i < |items|
      invariant Flatten(batches) == items[..Min(i, |items|)]
      invariant |results| == Min(i, |items|)
      invariant forall j :: 0 <= j < |results| ==> results[j] == processor(items[j])
      invariant forall k :: 0 <= k < |batches| ==> 0 < |batches[k]| <= batchSize
      invariant forall k :: 0 <= k < |batches| - 1 ==> |batches[k]| == batchSize
      invariant i < |items| ==> forall k :: 0 <= k < |batches| ==> |batches[k]| == batchSize
      decreases |items| - i
    {
      var end := Min(i + batchSize, |items|);
      var batch := items[i..end];
      var batchResults := seq(|batch|, j requires 0 <= j < |batch| => processor(batch[j]));
      FlattenAppend(batches, batch);
      assert items[..i] + batch == items[..end];
      results := results + batchResults;
      batches := batches + [batch];
      i := i + batchSize;
    }
  }

  /** The processor of the scan: the id when its record was read and is open,
      null when the read threw or the dispute is in another status. */
  function Candidate(read: nat -> Outcome<DisputeRecord>, id: nat): (r: Option<nat>)
    ensures r.Some? <==> read(id).Done? && read(id).value.status == OPEN_STATUS
    ensures r.Some? ==> r.value == id
  {
    match read(id)
    case Done(d) => if d.status == OPEN_STATUS then Some(id) else None
    case Threw(_) => None
  }

  /** The ids 0..count-1 (`Array.from({ length }, (_, i) => i)`). */
  function Ids(count: nat): (r: seq<nat>)
    ensures |r| == count && forall i :: 0 <= i < count ==> r[i] == i
  {
    seq(count, i requires 0 <= i < count => i)
  }

  /** The open ids among 0..count-1, in ascending order. */
  function Candidates(read: nat -> Outcome<DisputeRecord>, count: nat): (r: seq<nat>)
    ensures |r| <= count
  {
    Present(seq(count, i requires 0 <= i < count => Candidate(read, i)))
  }

  /** An id is a candidate exactly when it was scanned, its read succeeded
      and its status is open; a failed read only skips that id. */
  lemma CandidatesExactly(read: nat -> Outcome<DisputeRecord>, count: nat, id: nat)
    ensures id in Candidates(read, count)
            <==> id < count && read(id).Done? && read(id).value.status == OPEN_STATUS
  {
    var s := seq(count, i requires 0 <= i < count => Candidate(read, i));
    PresentKeeps(s, id);
    if id < count && read(id).Done? && read(id).value.status == OPEN_STATUS {
      assert s[id] == Some(id);
    }
  }

  /** The candidates are strictly ascending, so none is listed twice. */
  lemma {:induction false} CandidatesAscending(read: nat -> Outcome<DisputeRecord>, count: nat)
    ensures forall a, b :: 0 <= a < b < |Candidates(read, count)| ==>
              Candidates(read, count)[a] < Candidates(read, count)[b]
    ensures forall a :: 0 <= a < |Candidates(read, count)| ==> Candidates(read, count)[a] < count
  {
    if count > 0 {
      CandidatesAscending(read, count - 1);
      var s := seq(count, i requires 0 <= i < count => Candidate(read, i));
      var s' := seq(count - 1, i requires 0 <= i < count - 1 => Candidate(read, i));
      assert s[..count - 1] == s';
      var c, c' := Candidates(read, count), Candidates(read, count - 1);
      if s[count - 1].Some? {
        assert c == c' + [count - 1];
      } else {
        assert c == c';
      }
    }
  }

  /** `Math.floor(random * length)` for `0 <= random < 1` is an index. */
  lemma RandomIndexInRange(random: real, length: nat)
    requires 0.0 <= random < 1.0 && length > 0
    ensures 0 <= (random * length as real).Floor < length
  {
    var x := random * length as real;
    assert x < length as real;
  }

  /** The random choice among the candidates: null when there are none,
      otherwise the one at index `Math.floor(random * length)`. */
  function Pick(candidates: seq<nat>, random: real): (r: Option<nat>)
    requires 0.0 <= random < 1.0
    ensures r.None? <==> candidates == []
    ensures r.Some? ==> r.value in candidates
  {
    if candidates == [] then None
    else
      RandomIndexInRange(random, |candidates|);
      Some(candidates[(random * |candidates| as real).Floor])
  }

  /** The matchmaker's answer is an open dispute that was scanned, and it
      answers null only when no scanned dispute is open. */
  lemma MatchIsOpen(read: nat -> Outcome<DisputeRecord>, count: nat, random: real)
    requires 0.0 <= random < 1.0
    ensures var r := Pick(Candidates(read, count), random);
            && (r.Some? ==> r.value < count && read(r.value).Done? && read(r.value).value.status == OPEN_STATUS)
            && (r.None? <==> forall id :: 0 <= id < count ==> !(read(id).Done? && read(id).value.status == OPEN_STATUS))
  {
    var r := Pick(Candidates(read, count), random);
    if r.None? {
      forall id | 0 <= id < count
        ensures !(read(id).Done? && read(id).value.status == OPEN_STATUS)
      {
        CandidatesExactly(read, count, id);
      }
    } else {
      CandidatesExactly(read, count, r.value);
    }
  }

  /** The processor of the scan as it runs: it issues the `disputes(id)`
      read and yields the id when that read shows an open dispute. */
  function ScanStep(read: nat -> Outcome<DisputeRecord>, id: nat): (r: (Call, Option<nat>))
    ensures r.0 == ReadDispute(IdNum(id))
    ensures r.1 == Candidate(read, id)
  {
    (ReadDispute(IdNum(id)), Candidate(read, id))
  }

  /** The batched scan of findActiveDispute: ids 0..total-1 through the
      processor in batches of five, the reads it issued in the order of the
      batches, and the null results dropped. */
  method ScanForCandidates(read: nat -> Outcome<DisputeRecord>, total: nat)
    returns (available: seq<nat>, issued: seq<Call>)
    ensures available == Candidates(read, total)
    // Every id 0..total-1 is read once, in ascending order.
    ensures issued == seq(total, i requires 0 <= i < total => ReadDispute(IdNum(i)))
  {
    var results, _ := ProcessInBatches(Ids(total), SCAN_BATCH_SIZE, id => ScanStep(read, id));
    issued := seq(|results|, j requires 0 <= j < |results| => results[j].0);
    var found := seq(|results|, j requires 0 <= j < |results| => results[j].1);
    assert forall j :: 0 <= j < total ==> found[j] == Candidate(read, j);
    assert found == seq(total, i requires 0 <= i < total => Candidate(read, i));
    available := Present(found);
  }

  class AssignDisputeHook {
    var isFinding: bool
    var isJoining: bool

    constructor ()
      ensures !isFinding && !isJoining
    {
      isFinding := false;
      isJoining := false;
    }

    /** findActiveDispute. `hasClient` and `hasContract` say whether the
        public client and the registry address exist, `countRead` is the
        answer to disputeCount, `read` the answer to `disputes(id)`, and
        `random` the value Math.random returned. */
    method FindActiveDispute(hasClient: bool, hasContract: bool, countRead: Outcome<nat>,
                             read: nat -> Outcome<DisputeRecord>, random: real)
      returns (found: Option<nat>, calls: seq<Call>)
      requires 0.0 <= random < 1.0
      modifies this`isFinding
      ensures !hasClient || !hasContract ==> found == None && calls == [] && isFinding == old(isFinding)
      ensures hasClient && hasContract ==> !isFinding
      // A failed count read, or no disputes: null, and no record is read.
      ensures hasClient && hasContract && (countRead.Threw? || countRead.value == 0) ==>
                found == None && calls == [ReadDisputeCount]
      // Otherwise every id 0..count-1 is read once, in order.
      ensures hasClient && hasContract && countRead.Done? && countRead.value > 0 ==>
                var n := countRead.value;
                && calls == [ReadDisputeCount] + seq(n, i requires 0 <= i < n => ReadDispute(IdNum(i)))
                && found == Pick(Candidates(read, n), random)
    {
      found, calls := None, [];
      if !hasClient || !hasContract {
        return;
      }
      isFinding := true;
      calls := calls + [ReadDisputeCount];
      if countRead.Threw? || countRead.value == 0 {
        isFinding := false;
        return;
      }
      var total := countRead.value;
      var available, issued := ScanForCandidates(read, total);
      calls := calls + issued;
      found := Pick(available, random);
      isFinding := false;
    }

    /** joinDispute: read the stake, read the allowance, approve exactly the
        stake when the allowance is below it, then join. A failure at any
        step (a thrown read, send or wait) returns false. */
    method JoinDispute(disputeId: int, address: Option<string>, hasClient: bool,
                       disputeRead: Outcome<DisputeRecord>, allowanceRead: Outcome<int>,
                       approve: Tx, join: Tx)
      returns (ok: bool, calls: seq<Call>)
      modifies this`isJoining
      // Not connected: false, nothing read or sent.
      ensures !Truthy(address) || !hasClient ==> !ok && calls == [] && isJoining == old(isJoining)
      ensures Truthy(address) && hasClient ==>
                && !isJoining
                && |calls| > 0 && calls[0] == ReadDispute(IdNum(disputeId))
                && (disputeRead.Threw? ==> !ok && calls == [ReadDispute(IdNum(disputeId))])
                && (disputeRead.Done? && allowanceRead.Threw? ==>
                      !ok && calls == [ReadDispute(IdNum(disputeId)), ReadAllowance])
                && (disputeRead.Done? && allowanceRead.Done? ==>
                      var stake := disputeRead.value.jurorStake;
                      var needsApproval := allowanceRead.value < stake;
                      && calls == [ReadDispute(IdNum(disputeId)), ReadAllowance]
                                  + (if needsApproval then TxCalls(SendApprove(stake), approve) else [])
                                  + (if !needsApproval || TxReturned(approve) then TxCalls(SendJoin(IdNum(disputeId)), join) else [])
                      && (ok <==> (needsApproval ==> TxReturned(approve)) && TxReturned(join)))
      // An approval is only ever for the stake, and only when the allowance is below it.
      ensures forall c :: c in calls && c.SendApprove? ==>
                && disputeRead.Done? && allowanceRead.Done?
                && c.amount == disputeRead.value.jurorStake
                && allowanceRead.value < disputeRead.value.jurorStake
    {
      ok, calls := false, [];
      if !Truthy(address) || !hasClient {
        return;
      }
      isJoining := true;
      calls := calls + [ReadDispute(IdNum(disputeId))];
      if disputeRead.Threw? {
        isJoining := false;
        return;
      }
      var amountToApprove := disputeRead.value.jurorStake;
      calls := calls + [ReadAllowance];
      if allowanceRead.Threw? {
        isJoining := false;
        return;
      }
      if allowanceRead.value < amountToApprove {
        calls := calls + TxCalls(SendApprove(amountToApprove), approve);
        if !TxReturned(approve) {
          isJoining := false;
          return;
        }
      }
      calls := calls + TxCalls(SendJoin(IdNum(disputeId)), join);
      ok := TxReturned(join);
      isJoining := false;
    }
  }
}
