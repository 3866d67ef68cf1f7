/**
 * `cleanDuplicateRecords`: after the election, one delete request for every
 * record of the original list whose ID differs from the elected ID, in list
 * order.  The outcome of a delete only reaches the log, so it neither changes
 * the domain's status nor stops the remaining deletes; the model therefore
 * takes no delete replies at all.
 */
module Pruning {
  import opened Types
  import opened Election

  /** The delete requests for every record of `rs` whose ID is not `keep`. */
  function DeleteCalls(zoneId: string, rs: seq<Record>, keep: string): (calls: seq<Request>)
    ensures |calls| <= |rs|
    ensures forall c :: c in calls ==> c.DeleteRecord? && c.zoneId == zoneId && c.recordId != keep
    ensures forall c :: c in calls ==> exists r :: r in rs && c.recordId == r.id
    ensures forall r :: r in rs && r.id != keep ==> DeleteRecord(zoneId, r.id) in calls
    decreases |rs|
  {
    if rs == [] then []
    else
      var last := rs[|rs| - 1];
      assert forall r :: r in rs[..|rs| - 1] ==> r in rs;
      assert forall r :: r in rs ==> r in rs[..|rs| - 1] || r == last;
      DeleteCalls(zoneId, rs[..|rs| - 1], keep) + (if last.id != keep then [DeleteRecord(zoneId, last.id)] else [])
  }

  /** The number of records of `rs` whose ID is `id`. */
  function CountId(rs: seq<Record>, id: string): (n: nat)
    decreases |rs|
  {
    if rs == [] then 0
    else CountId(rs[..|rs| - 1], id) + (if rs[|rs| - 1].id == id then 1 else 0)
  }

  /** Every record not carrying the kept ID costs exactly one delete. */
  lemma {:induction false} DeleteCallsCount(zoneId: string, rs: seq<Record>, keep: string)
    ensures |DeleteCalls(zoneId, rs, keep)| == |rs| - CountId(rs, keep)
    decreases |rs|
  {
    if rs != [] {
      DeleteCallsCount(zoneId, rs[..|rs| - 1], keep);
    }
  }

  /** IDs that occur at most once: the provider's record IDs. */
  ghost predicate DistinctIds(rs: seq<Record>)
  {
    forall i, j :: 0 <= i < j < |rs| ==> rs[i].id != rs[j].id
  }

  lemma {:induction false} CountIdOfDistinct(rs: seq<Record>, i: int)
    requires DistinctIds(rs) && 0 <= i < |rs|
    ensures CountId(rs, rs[i].id) == 1
    decreases |rs|
  {
    var p := rs[..|rs| - 1];
    if i < |p| {
      assert p[i] == rs[i];
      CountIdOfDistinct(p, i);
    } else {
      CountIdAbsent(p, rs[i].id);
    }
  }

  lemma {:induction false} CountIdAbsent(rs: seq<Record>, id: string)
    requires forall r :: r in rs ==> r.id != id
    ensures CountId(rs, id) == 0
    decreases |rs|
  {
    if rs != [] {
      assert forall r :: r in rs[..|rs| - 1] ==> r in rs;
      CountIdAbsent(rs[..|rs| - 1], id);
    }
  }

  /** `cleanDuplicateRecords`: the election loop, then the delete loop. */
  method CleanDuplicateRecords(zoneId: string, records: seq<Record>) returns (deletes: seq<Request>)
    ensures deletes == DeleteCalls(zoneId, records, ElectLatest(records).id)
  {
    var latestRecordId := LatestRecordId(records);
    deletes := [];
    var i := 0;
    while i < |records|
      invariant 0 <= i <= |records|
      invariant deletes == DeleteCalls(zoneId, records[..i], latestRecordId)
    {
      assert records[..i + 1][..i] == records[..i];
      if records[i].id != latestRecordId {
        deletes := deletes + [DeleteRecord(zoneId, records[i].id)];
      }
      i := i + 1;
    }
    assert records[..i] == records;
  }

  /** Convergence: with distinct IDs and some record electable, every record
      but the latest one is deleted, and the latest one is kept. */
  lemma PruneKeepsOnlyTheLatest(zoneId: string, rs: seq<Record>, i: int)
    requires DistinctIds(rs) && IsLatest(rs, i)
    ensures forall j :: 0 <= j < |rs| ==>
              (DeleteRecord(zoneId, rs[j].id) in DeleteCalls(zoneId, rs, ElectLatest(rs).id) <==> j != i)
    ensures |DeleteCalls(zoneId, rs, ElectLatest(rs).id)| == |rs| - 1
  {
    ElectsTheLatest(rs, i);
    assert rs[i] in rs;
    DeleteCallsCount(zoneId, rs, rs[i].id);
    CountIdOfDistinct(rs, i);
  }

  /** When no record has a time later than the zero time, the elected ID is
      empty and every record with a non-empty ID is deleted. */
  lemma PruneWithoutTimesDeletesAll(zoneId: string, rs: seq<Record>)
    requires forall i :: !Electable(rs, i)
    ensures ElectLatest(rs).id == ""
    ensures forall j :: 0 <= j < |rs| ==>
              (DeleteRecord(zoneId, rs[j].id) in DeleteCalls(zoneId, rs, ElectLatest(rs).id) <==> rs[j].id != "")
  {
    NoneElectable(rs);
    assert forall j :: 0 <= j < |rs| ==> rs[j] in rs;
  }
}
