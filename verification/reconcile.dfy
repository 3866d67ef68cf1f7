/**
 * `addUpdateDomainRecords` and `AddUpdateDomainRecords`: for each record
 * type, and for each domain of that type, zone lookup, record query, create
 * or update, and duplicate pruning.  The provider's answers are inputs: a
 * `Replies` value per domain.  A domain's result is the list of requests it
 * issued and the last status assigned to it on its path.
 */
module Reconcile {
  import opened Types
  import opened Election
  import opened Pruning
  import opened Writes

  /** The provider's answers to one domain's zone lookup, record query and
      write request. */
  datatype Replies = Replies(
    zones: Reply<Envelope<Zone>>,
    records: Reply<Envelope<Record>>,
    write: Reply<Envelope<Zone>>)

  datatype DomainResult = DomainResult(calls: seq<Request>, status: Status)

  /** What the IP source yields for one record type: the desired address
      (empty when nothing is to be updated) and the domains to update. */
  datatype IpResult = IpResult(ipAddr: string, domains: seq<Domain>)

  /** The zone lookup failed: a transport error, or no zone matched.  (The
      `success` flag of this reply is not inspected.) */
  predicate ZoneLookupFailed(reply: Reply<Envelope<Zone>>)
  {
    reply.TransportError? || reply.body.result == []
  }

  /** The record query failed: a transport error or `success` false. */
  predicate RecordQueryFailed(reply: Reply<Envelope<Record>>)
  {
    reply.TransportError? || !reply.body.success
  }

  /** The requests one domain issues and the status it ends with. */
  function DomainRun(cfg: Config, recordType: string, ipAddr: string, domain: Domain, replies: Replies): (r: DomainResult)
  {
    var lookup := ListZones(domain.topDomain);
    if ZoneLookupFailed(replies.zones) then DomainResult([lookup], Failed)
    else
      var zoneId := replies.zones.body.result[0].id;
      var query := ListRecords(zoneId, recordType, FullName(domain), PageSize);
      if RecordQueryFailed(replies.records) then DomainResult([lookup, query], Failed)
      else
        var records := replies.records.body.result;
        var w := if |records| > 0 then Modify(cfg, records, zoneId, ipAddr, replies.write)
                 else Create(cfg, zoneId, domain, recordType, ipAddr, replies.write);
        DomainResult([lookup, query, w.request] + DeleteCalls(zoneId, records, ElectLatest(records).id), w.status)
  }

  /** The body of the loop over domains in `addUpdateDomainRecords`. */
  method ReconcileDomain(cfg: Config, recordType: string, ipAddr: string, domain: Domain, replies: Replies)
    returns (calls: seq<Request>, status: Status)
    ensures DomainResult(calls, status) == DomainRun(cfg, recordType, ipAddr, domain, replies)
  {
    calls := [ListZones(domain.topDomain)];
    if replies.zones.TransportError? {
      status := Failed;
      return;
    }
    if |replies.zones.body.result| == 0 {
      status := Failed;
      return;
    }
    var zoneId := replies.zones.body.result[0].id;
    calls := calls + [ListRecords(zoneId, recordType, FullName(domain), PageSize)];
    if replies.records.TransportError? {
      status := Failed;
      return;
    }
    if !replies.records.body.success {
      status := Failed;
      return;
    }
    var records := replies.records.body.result;
    var w;
    if |records| > 0 {
      w := Modify(cfg, records, zoneId, ipAddr, replies.write);
    } else {
      w := Create(cfg, zoneId, domain, recordType, ipAddr, replies.write);
    }
    calls := calls + [w.request];
    status := w.status;
    var deletes := CleanDuplicateRecords(zoneId, records);
    calls := calls + deletes;
  }

  /** The requests of a list of domain results, in order. */
  function Flatten(results: seq<DomainResult>): (calls: seq<Request>)
    decreases |results|
  {
    if results == [] then []
    else Flatten(results[..|results| - 1]) + results[|results| - 1].calls
  }

  /** The requests of domain `k` come after those of every earlier domain
      and before those of every later one. */
  lemma {:induction false} FlattenSplit(results: seq<DomainResult>, k: int)
    requires 0 <= k < |results|
    ensures Flatten(results) == Flatten(results[..k]) + results[k].calls + Flatten(results[k + 1..])
    decreases |results|
  {
    var n := |results|;
    if k == n - 1 {
      assert results[k + 1..] == [];
    } else {
      var p := results[..n - 1];
      FlattenSplit(p, k);
      assert p[..k] == results[..k];
      assert p[k] == results[k];
      assert results[k + 1..] == p[k + 1..] + [results[n - 1]];
      assert results[k + 1..][..|results[k + 1..]| - 1] == p[k + 1..];
    }
  }

  /** The outcome of `addUpdateDomainRecords` for one record type: nothing
      when the IP source yields an empty address, else one result per domain,
      each depending only on that domain and its own replies. */
  ghost predicate TypePass(cfg: Config, recordType: string, source: IpResult, replies: nat -> Replies,
                           results: seq<DomainResult>)
  {
    if source.ipAddr == "" then results == []
    else
      && |results| == |source.domains|
      && forall k :: 0 <= k < |results| ==>
           results[k] == DomainRun(cfg, recordType, source.ipAddr, source.domains[k], replies(k))
  }

  /** `addUpdateDomainRecords`: `replies(k)` answers the requests of the
      `k`-th domain. */
  method AddUpdateRecordType(cfg: Config, recordType: string, source: IpResult, replies: nat -> Replies)
    returns (calls: seq<Request>, results: seq<DomainResult>)
    ensures TypePass(cfg, recordType, source, replies, results)
    ensures calls == Flatten(results)
  {
    calls, results := [], [];
    if source.ipAddr == "" {
      return;
    }
    var i := 0;
    while i < |source.domains|
      invariant 0 <= i <= |source.domains|
      invariant |results| == i
      invariant forall k :: 0 <= k < i ==>
                  results[k] == DomainRun(cfg, recordType, source.ipAddr, source.domains[k], replies(k))
      invariant calls == Flatten(results)
    {
      var domainCalls, status := ReconcileDomain(cfg, recordType, source.ipAddr, source.domains[i], replies(i));
      assert (results + [DomainResult(domainCalls, status)])[..i] == results;
      results := results + [DomainResult(domainCalls, status)];
      calls := calls + domainCalls;
      i := i + 1;
    }
  }

  /** `AddUpdateDomainRecords`: the "A" pass, then the "AAAA" pass. */
  method AddUpdateDomainRecords(cfg: Config, ipv4: IpResult, replies4: nat -> Replies,
                                ipv6: IpResult, replies6: nat -> Replies)
    returns (calls: seq<Request>, results4: seq<DomainResult>, results6: seq<DomainResult>)
    ensures TypePass(cfg, "A", ipv4, replies4, results4)
    ensures TypePass(cfg, "AAAA", ipv6, replies6, results6)
    ensures calls == Flatten(results4) + Flatten(results6)
  {
    var calls4, calls6;
    calls4, results4 := AddUpdateRecordType(cfg, "A", ipv4, replies4);
    calls6, results6 := AddUpdateRecordType(cfg, "AAAA", ipv6, replies6);
    calls := calls4 + calls6;
  }

  // Properties of one domain's reconciliation.

  /** A failed zone lookup leaves the domain Failed after the lookup alone:
      no record query, write or delete. */
  lemma ZoneFailureStopsDomain(cfg: Config, recordType: string, ipAddr: string, domain: Domain, replies: Replies)
    requires ZoneLookupFailed(replies.zones)
    ensures var r := DomainRun(cfg, recordType, ipAddr, domain, replies);
            && r.status == Failed
            && r.calls == [ListZones(domain.topDomain)]
            && CountVerb(r.calls, Post) == 0 && CountVerb(r.calls, Put) == 0 && CountVerb(r.calls, Delete) == 0
  {
  }

  /** A failed record query leaves the domain Failed after the lookup and
      the query: no create, update or delete. */
  lemma QueryFailureSkipsWrites(cfg: Config, recordType: string, ipAddr: string, domain: Domain, replies: Replies)
    requires !ZoneLookupFailed(replies.zones) && RecordQueryFailed(replies.records)
    ensures var r := DomainRun(cfg, recordType, ipAddr, domain, replies);
            && r.status == Failed
            && r.calls == [ListZones(domain.topDomain),
                           ListRecords(replies.zones.body.result[0].id, recordType, FullName(domain), PageSize)]
            && CountVerb(r.calls, Post) == 0 && CountVerb(r.calls, Put) == 0 && CountVerb(r.calls, Delete) == 0
  {
  }

  /** A domain ends Success exactly when the zone lookup and the record query
      succeed and the write reply is a response with `success` true. */
  lemma StatusRule(cfg: Config, recordType: string, ipAddr: string, domain: Domain, replies: Replies)
    ensures DomainRun(cfg, recordType, ipAddr, domain, replies).status == Success <==>
              && !ZoneLookupFailed(replies.zones)
              && !RecordQueryFailed(replies.records)
              && replies.write.Received? && replies.write.body.success
  {
  }

  /** With no record listed, exactly one create is issued, carrying the type,
      the subdomain label, the desired IP, the configured TTL and proxy flag,
      and nothing is updated or deleted. */
  lemma EmptyListCreatesOnce(cfg: Config, recordType: string, ipAddr: string, domain: Domain, replies: Replies)
    requires !ZoneLookupFailed(replies.zones) && !RecordQueryFailed(replies.records)
    requires replies.records.body.result == []
    ensures var r := DomainRun(cfg, recordType, ipAddr, domain, replies);
            && |r.calls| == 3
            && r.calls[2] == CreateRecord(replies.zones.body.result[0].id,
                                          RecordBody(recordType, domain.subDomain, ipAddr, cfg.ttl, cfg.proxy))
            && CountVerb(r.calls, Post) == 1 && CountVerb(r.calls, Put) == 0 && CountVerb(r.calls, Delete) == 0
  {
    var r := DomainRun(cfg, recordType, ipAddr, domain, replies);
    assert r.calls == [r.calls[0], r.calls[1]] + [r.calls[2]];
    CountVerbAppend([r.calls[0], r.calls[1]], [r.calls[2]], Post);
    CountVerbZero(r.calls, Put);
    CountVerbZero(r.calls, Delete);
  }

  /** With a non-empty list, exactly one update is issued, on the first
      listed record: it keeps that record's type, name and proxy flag and
      sets the desired IP and the configured TTL.  No other record is
      updated and nothing is created. */
  lemma NonEmptyListUpdatesFirst(cfg: Config, recordType: string, ipAddr: string, domain: Domain, replies: Replies)
    requires !ZoneLookupFailed(replies.zones) && !RecordQueryFailed(replies.records)
    requires replies.records.body.result != []
    ensures var r := DomainRun(cfg, recordType, ipAddr, domain, replies);
            var first := replies.records.body.result[0];
            && |r.calls| >= 3
            && r.calls[2] == UpdateRecord(replies.zones.body.result[0].id, first.id,
                                          RecordBody(first.rtype, first.name, ipAddr, cfg.ttl, first.proxied))
            && (forall k :: 0 <= k < |r.calls| && r.calls[k].UpdateRecord? ==> k == 2)
            && CountVerb(r.calls, Put) == 1 && CountVerb(r.calls, Post) == 0
  {
    var r := DomainRun(cfg, recordType, ipAddr, domain, replies);
    var zoneId := replies.zones.body.result[0].id;
    var records := replies.records.body.result;
    var deletes := DeleteCalls(zoneId, records, ElectLatest(records).id);
    var head := [r.calls[0], r.calls[1]] + [r.calls[2]];
    assert r.calls == head + deletes;
    DeletesAreOnlyDeletes(zoneId, records, ElectLatest(records).id);
    CountVerbAppend([r.calls[0], r.calls[1]], [r.calls[2]], Put);
    CountVerbAppend([r.calls[0], r.calls[1]], [r.calls[2]], Post);
    CountVerbAppend(head, deletes, Put);
    CountVerbAppend(head, deletes, Post);
  }

  /** Pruning issues no create and no update. */
  lemma DeletesAreOnlyDeletes(zoneId: string, records: seq<Record>, keep: string)
    ensures var deletes := DeleteCalls(zoneId, records, keep);
            && (forall k :: 0 <= k < |deletes| ==> deletes[k].DeleteRecord?)
            && CountVerb(deletes, Put) == 0 && CountVerb(deletes, Post) == 0
  {
    var deletes := DeleteCalls(zoneId, records, keep);
    assert forall k :: 0 <= k < |deletes| ==> deletes[k] in deletes;
    CountVerbZero(deletes, Put);
    CountVerbZero(deletes, Post);
  }

  /** After the write, the original list is pruned: the requests following
      the write are exactly the deletes of every listed record whose ID is
      not the elected one, whatever the write's outcome. */
  lemma WriteIsFollowedByPruning(cfg: Config, recordType: string, ipAddr: string, domain: Domain, replies: Replies)
    requires !ZoneLookupFailed(replies.zones) && !RecordQueryFailed(replies.records)
    ensures var r := DomainRun(cfg, recordType, ipAddr, domain, replies);
            var zoneId := replies.zones.body.result[0].id;
            var records := replies.records.body.result;
            && |r.calls| >= 3
            && (forall k :: 3 <= k < |r.calls| ==>
                  r.calls[k].DeleteRecord? && r.calls[k].recordId != ElectLatest(records).id)
            && (forall j :: 0 <= j < |records| && records[j].id != ElectLatest(records).id ==>
                  DeleteRecord(zoneId, records[j].id) in r.calls[3..])
  {
  }

  /** A single record whose time is after Go's zero time takes the update
      path and is not deleted. */
  lemma SingleTimedRecordIsNotPruned(cfg: Config, recordType: string, ipAddr: string, domain: Domain, replies: Replies)
    requires !ZoneLookupFailed(replies.zones) && !RecordQueryFailed(replies.records)
    requires |replies.records.body.result| == 1 && Electable(replies.records.body.result, 0)
    ensures var r := DomainRun(cfg, recordType, ipAddr, domain, replies);
            && |r.calls| == 3 && r.calls[2].UpdateRecord?
            && r.calls[2].recordId == replies.records.body.result[0].id
  {
    var records := replies.records.body.result;
    assert IsLatest(records, 0);
    ElectsTheLatest(records, 0);
  }

  /** A single record with no parsable time and a non-empty ID is updated and
      then deleted in the same run. */
  lemma SingleUntimedRecordIsUpdatedThenDeleted(cfg: Config, recordType: string, ipAddr: string, domain: Domain,
                                                replies: Replies)
    requires !ZoneLookupFailed(replies.zones) && !RecordQueryFailed(replies.records)
    requires |replies.records.body.result| == 1 && TimeOf(replies.records.body.result[0]).None?
    requires replies.records.body.result[0].id != ""
    ensures var r := DomainRun(cfg, recordType, ipAddr, domain, replies);
            var zoneId := replies.zones.body.result[0].id;
            var id := replies.records.body.result[0].id;
            && |r.calls| == 4
            && r.calls[2].UpdateRecord? && r.calls[2].recordId == id
            && r.calls[3] == DeleteRecord(zoneId, id)
  {
    var records := replies.records.body.result;
    assert records[..0] == [];
    assert ElectLatest(records) == Unelected;
  }

  /** The update targets the first listed record while pruning keeps the
      latest one: with distinct IDs and the latest record not first, the
      updated record is deleted, and the record that survives is not the
      one that received the desired IP. */
  lemma UpdatedRecordIsPrunedWhenNotLatest(cfg: Config, recordType: string, ipAddr: string, domain: Domain,
                                           replies: Replies, i: int)
    requires !ZoneLookupFailed(replies.zones) && !RecordQueryFailed(replies.records)
    requires DistinctIds(replies.records.body.result) && IsLatest(replies.records.body.result, i) && i != 0
    ensures var r := DomainRun(cfg, recordType, ipAddr, domain, replies);
            var zoneId := replies.zones.body.result[0].id;
            var records := replies.records.body.result;
            && r.calls[2].UpdateRecord? && r.calls[2].recordId == records[0].id
            && DeleteRecord(zoneId, records[0].id) in r.calls
            && DeleteRecord(zoneId, records[i].id) !in r.calls
            && (forall k :: 0 <= k < |r.calls| && r.calls[k].UpdateRecord? ==> r.calls[k].recordId != records[i].id)
  {
    var r := DomainRun(cfg, recordType, ipAddr, domain, replies);
    var zoneId := replies.zones.body.result[0].id;
    var records := replies.records.body.result;
    var deletes := DeleteCalls(zoneId, records, ElectLatest(records).id);
    PruneKeepsOnlyTheLatest(zoneId, records, i);
    assert r.calls == r.calls[..3] + deletes;
    NonEmptyListUpdatesFirst(cfg, recordType, ipAddr, domain, replies);
    assert DeleteRecord(zoneId, records[i].id) !in r.calls[..3];
  }

  // Properties of a whole pass.

  /** An empty address from the IP source issues no request for that type. */
  lemma SkippedTypeIssuesNothing(cfg: Config, recordType: string, source: IpResult, replies: nat -> Replies,
                                 results: seq<DomainResult>)
    requires source.ipAddr == "" && TypePass(cfg, recordType, source, replies, results)
    ensures Flatten(results) == []
  {
  }

  /** Within a pass, the requests of the `k`-th domain are exactly its own
      reconciliation, issued after those of every earlier domain, whatever
      became of them. */
  lemma PassIsDomainByDomain(cfg: Config, recordType: string, source: IpResult, replies: nat -> Replies,
                             results: seq<DomainResult>, k: int)
    requires TypePass(cfg, recordType, source, replies, results)
    requires source.ipAddr != "" && 0 <= k < |source.domains|
    ensures Flatten(results) ==
              Flatten(results[..k])
              + DomainRun(cfg, recordType, source.ipAddr, source.domains[k], replies(k)).calls
              + Flatten(results[k + 1..])
  {
    FlattenSplit(results, k);
  }
}
