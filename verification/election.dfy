/**
 * The first half of `cleanDuplicateRecords`: electing the "latest" record of a
 * record list.  A record's time is its creation time when that parses, else
 * its modification time when that parses; a record with neither is skipped.
 * The elected record changes only on a strictly later time, starting from
 * Go's zero time and an empty ID.
 */
module Election {
  import opened Types

  /** The time the election reads from a record, if any. */
  function TimeOf(r: Record): (t: Option<Time>)
  {
    if r.createdOn.Some? then r.createdOn else r.modifiedOn
  }

  /** The state of the election loop: `latestTime` and `latestRecordID`. */
  datatype Latest = Latest(time: Time, id: string)

  const Unelected: Latest := Latest(ZeroTime, "")

  /** One step of the election loop. */
  function Consider(acc: Latest, r: Record): (next: Latest)
  {
    match TimeOf(r)
    case None => acc
    case Some(t) => if t > acc.time then Latest(t, r.id) else acc
  }

  /** The election as a left fold over the list. */
  function ElectLatest(rs: seq<Record>): (latest: Latest)
    decreases |rs|
  {
    if rs == [] then Unelected
    else Consider(ElectLatest(rs[..|rs| - 1]), rs[|rs| - 1])
  }

  /** Record `i` has a time that can win against the zero start time. */
  ghost predicate Electable(rs: seq<Record>, i: int)
  {
    0 <= i < |rs| && TimeOf(rs[i]).Some? && TimeOf(rs[i]).value > ZeroTime
  }

  /** Record `i` is the latest: electable, no record has a later time, and no
      earlier record in the list has the same time. */
  ghost predicate IsLatest(rs: seq<Record>, i: int)
  {
    && Electable(rs, i)
    && (forall j :: 0 <= j < |rs| && TimeOf(rs[j]).Some? ==> TimeOf(rs[j]).value <= TimeOf(rs[i]).value)
    && (forall j :: 0 <= j < i && TimeOf(rs[j]).Some? ==> TimeOf(rs[j]).value < TimeOf(rs[i]).value)
  }

  /** The fold elects the latest record, the first one in list order among
      records with equal times; when no record is electable it leaves the
      start state, and so the empty ID. */
  lemma {:induction false} ElectLatestSpec(rs: seq<Record>)
    ensures ElectLatest(rs).time >= ZeroTime
    ensures forall j :: 0 <= j < |rs| && TimeOf(rs[j]).Some? ==> TimeOf(rs[j]).value <= ElectLatest(rs).time
    ensures ElectLatest(rs).time == ZeroTime ==> ElectLatest(rs) == Unelected
    ensures ElectLatest(rs).time > ZeroTime ==>
              exists i :: IsLatest(rs, i) && ElectLatest(rs) == Latest(TimeOf(rs[i]).value, rs[i].id)
    decreases |rs|
  {
    if rs != [] {
      var p, x := rs[..|rs| - 1], rs[|rs| - 1];
      assert forall j :: 0 <= j < |p| ==> rs[j] == p[j];
      ElectLatestSpec(p);
      var acc := ElectLatest(p);
      if TimeOf(x).Some? && TimeOf(x).value > acc.time {
        assert IsLatest(rs, |p|);
      } else if acc.time > ZeroTime {
        var i :| IsLatest(p, i) && acc == Latest(TimeOf(p[i]).value, p[i].id);
        assert IsLatest(rs, i);
      }
    }
  }

  /** No record is electable exactly when the election keeps the start
      state. */
  lemma NoneElectable(rs: seq<Record>)
    ensures (forall i :: !Electable(rs, i)) <==> ElectLatest(rs) == Unelected
  {
    ElectLatestSpec(rs);
    if ElectLatest(rs) != Unelected {
      var i :| IsLatest(rs, i) && ElectLatest(rs) == Latest(TimeOf(rs[i]).value, rs[i].id);
      assert Electable(rs, i);
    }
  }

  /** Whenever some record is latest, the election picks that record's ID. */
  lemma ElectsTheLatest(rs: seq<Record>, i: int)
    requires IsLatest(rs, i)
    ensures ElectLatest(rs) == Latest(TimeOf(rs[i]).value, rs[i].id)
  {
    ElectLatestSpec(rs);
    var k :| IsLatest(rs, k) && ElectLatest(rs) == Latest(TimeOf(rs[k]).value, rs[k].id);
    LatestIsUnique(rs, i, k);
  }

  /** At most one record is the latest. */
  lemma LatestIsUnique(rs: seq<Record>, i: int, k: int)
    requires IsLatest(rs, i) && IsLatest(rs, k)
    ensures i == k
  {
  }

  /** The election loop of `cleanDuplicateRecords`. */
  method LatestRecordId(records: seq<Record>) returns (latestRecordId: string)
    ensures latestRecordId == ElectLatest(records).id
  {
    var latestTime := ZeroTime;
    latestRecordId := "";
    var i := 0;
    while i < |records|
      invariant 0 <= i <= |records|
      invariant Latest(latestTime, latestRecordId) == ElectLatest(records[..i])
    {
      var record := records[i];
      assert records[..i + 1][..i] == records[..i];
      var recordTime := record.createdOn;
      if recordTime.None? {
        recordTime := record.modifiedOn;
        if recordTime.None? {
          i := i + 1;
          continue;
        }
      }
      if recordTime.value > latestTime {
        latestTime := recordTime.value;
        latestRecordId := record.id;
      }
      i := i + 1;
    }
    assert records[..i] == records;
  }
}
