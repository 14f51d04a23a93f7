/** useDisputeList: which dispute records to read for the juror's list or
    for the newest-first list of all disputes, and the shaping of the
    multicall's results into the displayed list. */
module DisputeList {
  import opened Js
  import opened Remote

  /** How many of the newest disputes the "all" list shows. */
  const PAGE_SIZE: nat := 20

  datatype ListType = Juror | All

  /** One entry of the multicall's answer: `status: "success"` with the
      decoded struct, or a failed read. */
  datatype ReadResult<T> = Success(result: T) | Failure(error: ErrorInfo)

  function Max(a: int, b: int): int { if a >= b then a else b }
  function Min(a: int, b: int): int { if a <= b then a else b }

  /** The newest ids of a registry holding `total` disputes: total-1, total-2,
      ... down to max(0, total-20). */
  function NewestIds(total: nat): (r: seq<nat>)
    ensures |r| == Min(total, PAGE_SIZE)
    ensures forall k :: 0 <= k < |r| ==> Max(0, total - PAGE_SIZE) <= r[k] < total
  {
    seq(Min(total, PAGE_SIZE), k requires 0 <= k < Min(total, PAGE_SIZE) => total - 1 - k)
  }

  /** The window has min(total, 20) ids, strictly descending from total-1,
      and an id is in it exactly when max(0, total-20) <= id < total. */
  lemma NewestIdsWindow(total: nat)
    ensures |NewestIds(total)| == Min(total, PAGE_SIZE)
    ensures total > 0 ==> NewestIds(total)[0] == total - 1
    ensures forall a, b :: 0 <= a < b < |NewestIds(total)| ==> NewestIds(total)[a] > NewestIds(total)[b]
    ensures forall id: nat :: id in NewestIds(total) <==> Max(0, total - PAGE_SIZE) <= id < total
  {
    var w := NewestIds(total);
    forall id: nat | Max(0, total - PAGE_SIZE) <= id < total
      ensures id in w
    {
      assert w[total - 1 - id] == id;
    }
  }

  /** JavaScript truthiness of the bigint disputeCount: undefined and 0n are falsy. */
  predicate CountTruthy(totalCount: Option<nat>) {
    totalCount.Some? && totalCount.value != 0
  }

  /** The `calls` memo: the id argument of every `disputes(id)` read, in
      order. `jurorDisputeIds` is the answer to getJurorDisputes (undefined
      while that read is disabled or pending), `totalCount` the answer to
      disputeCount. */
  method BuildCalls(listType: ListType, jurorDisputeIds: Option<seq<nat>>, totalCount: Option<nat>)
    returns (ids: seq<nat>)
    // Only the branch of the list type contributes: the juror's ids as given,
    // or the newest window of all ids; nothing while the input is missing.
    ensures listType == Juror ==> ids == if jurorDisputeIds.Some? then jurorDisputeIds.value else []
    ensures listType == All ==> ids == if CountTruthy(totalCount) then NewestIds(totalCount.value) else []
  {
    ids := [];
    if listType == Juror && jurorDisputeIds.Some? {
      var juror := jurorDisputeIds.value;
      for k := 0 to |juror|
        invariant ids == juror[..k]
      {
        ids := ids + [juror[k]];
      }
      assert juror[..|juror|] == juror;
    } else if listType == All && CountTruthy(totalCount) {
      var total := totalCount.value;
      var end := Max(0, total - PAGE_SIZE);
      var i := total - 1;
      while i >= end
        invariant end - 1 <= i <= total - 1
        invariant |ids| == total - 1 - i
        invariant forall k :: 0 <= k < |ids| ==> ids[k] == total - 1 - k
        decreases i
      {
        ids := ids + [i];
        i := i - 1;
      }
      assert |ids| == Min(total, PAGE_SIZE);
    }
  }

  /** Each result through transformDisputeData, null for a failed read. */
  function Processed<T, D>(results: seq<ReadResult<T>>, transform: T -> Outcome<D>): (r: seq<Option<Outcome<D>>>)
    ensures |r| == |results|
    ensures forall i :: 0 <= i < |results| ==>
              r[i] == if results[i].Success? then Some(transform(results[i].result)) else None
  {
    seq(|results|, i requires 0 <= i < |results| => if results[i].Success? then Some(transform(results[i].result)) else None)
  }

  /** No transform of a successful read threw (else Promise.all rejects). */
  predicate AllTransformed<T, D>(results: seq<ReadResult<T>>, transform: T -> Outcome<D>) {
    forall i :: 0 <= i < |results| && results[i].Success? ==> transform(results[i].result).Done?
  }

  /** `processed.filter(d => d !== null)`: the values of the non-null
      entries of Processed, in order. */
  function Shown<T, D>(results: seq<ReadResult<T>>, transform: T -> Outcome<D>): (r: seq<D>)
    requires AllTransformed(results, transform)
    ensures |r| <= |results|
  {
    var p := Processed(results, transform);
    Present(Values(p))
  }

  /** The resolved values of a Processed list whose outcomes all returned. */
  function Values<D>(p: seq<Option<Outcome<D>>>): (r: seq<Option<D>>)
    requires forall i :: 0 <= i < |p| && p[i].Some? ==> p[i].value.Done?
    ensures |r| == |p|
    ensures forall i :: 0 <= i < |p| ==> (r[i].Some? <==> p[i].Some?)
    ensures forall i :: 0 <= i < |p| && p[i].Some? ==> r[i].value == p[i].value.value
  {
    seq(|p|, i requires 0 <= i < |p| => if p[i].Some? then Some(p[i].value.value) else None)
  }

  /** A record is shown exactly when it is the transform of a successful
      read, and the shown records keep the order of their reads: the i-th
      result, when successful, is shown after the successful ones before it. */
  lemma ShownKeepsOrder<T, D>(results: seq<ReadResult<T>>, transform: T -> Outcome<D>, i: nat)
    requires AllTransformed(results, transform)
    requires i < |results| && results[i].Success?
    ensures var before := Shown(results[..i], transform);
            |before| < |Shown(results, transform)|
            && Shown(results, transform)[|before|] == transform(results[i].result).value
  {
    var s := Values(Processed(results, transform));
    var p := results[..i];
    assert s[..i] == Values(Processed(p, transform));
    PresentAt(s, i);
  }

  lemma ShownExactly<T, D>(results: seq<ReadResult<T>>, transform: T -> Outcome<D>, d: D)
    requires AllTransformed(results, transform)
    ensures d in Shown(results, transform)
            <==> exists i :: 0 <= i < |results| && results[i].Success? && transform(results[i].result) == Done(d)
  {
    var s := Values(Processed(results, transform));
    PresentKeeps(s, d);
    if d in Shown(results, transform) {
      var i :| 0 <= i < |s| && s[i] == Some(d);
      assert results[i].Success? && transform(results[i].result) == Done(d);
    }
    if exists i :: 0 <= i < |results| && results[i].Success? && transform(results[i].result) == Done(d) {
      var i :| 0 <= i < |results| && results[i].Success? && transform(results[i].result) == Done(d);
      assert s[i] == Some(d);
    }
  }

  class DisputeListHook<T, D> {
    var disputes: seq<D>
    var isProcessing: bool

    constructor ()
      ensures disputes == [] && isProcessing
    {
      disputes := [];
      isProcessing := true;
    }

    /** The effect's `process`, given the multicall's results (undefined
        before they arrive) and transformDisputeData. */
    method Process(results: Option<seq<ReadResult<T>>>, transform: T -> Outcome<D>)
      modifies this
      // No results: an empty list, not processing.
      ensures results.None? || results.value == [] ==> disputes == [] && !isProcessing
      ensures results.Some? && results.value != [] ==>
                if AllTransformed(results.value, transform) then
                  disputes == Shown(results.value, transform) && !isProcessing
                else
                  // A rejected transform leaves the list as it was, still processing.
                  disputes == old(disputes) && isProcessing
    {
      if results.None? || results.value == [] {
        disputes := [];
        isProcessing := false;
        return;
      }
      isProcessing := true;
      var rs := results.value;
      var processed := Processed(rs, transform);
      if exists i :: 0 <= i < |rs| && processed[i].Some? && processed[i].value.Threw? {
        return;
      }
      disputes := Shown(rs, transform);
      isProcessing := false;
    }
  }
}
