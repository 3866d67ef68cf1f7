# Cloudflare DNS updater: reconciliation model

A Dafny model of the per-domain reconciliation in ddns-go's Cloudflare
provider, `dns/cloudflare.go`. For each record type it runs the "A" pass and
then the "AAAA" pass. A pass takes the desired IP address and the domains from
the IP source and handles the domains one by one:

1. Look up the zone of the top domain.
2. Query the existing records of the type and full name, 50 per page.
3. Create a record when the list is empty, or update the first listed record.
4. Prune duplicates: elect the latest record of the original list and delete
   every record whose ID differs from the elected ID.

The provider's API is not modelled as a server. A domain's requests are
answered by a `Replies` value: the zone-lookup reply, the record-query reply
and the write reply. Each reply is a decoded envelope or a transport error.
Every operation returns the list of requests it issues (`Request`: ListZones,
ListRecords, CreateRecord, UpdateRecord, DeleteRecord, with their fields).
Each domain also gets the status its path assigns (`Failed` or `Success`).

Files:
- `types.dfy`: records, envelopes, replies, requests, configuration, status.
- `election.dfy`: the "latest record" election. It is a fold (`ElectLatest`)
  with a loop proved equal to it (`LatestRecordId`). It is also
  characterised independently: the electable record with the latest time, the
  first in list order among equal times (`IsLatest`).
- `pruning.dfy`: the delete loop and what survives pruning.
- `writes.dfy`: `create` and `modify`.
- `reconcile.dfy`: the per-domain procedure, the per-type loop, the
  two-type driver, and the properties of a domain's run.

Three behaviours of the code are easy to expect otherwise. The model keeps
the code's behaviour in each case:
- The zone lookup fails only on a transport error or an empty result list.
  Its `success` flag is never inspected (`ZoneLookupFailed`).
- A record is elected only when its time is after Go's zero time. When no
  record qualifies, the elected ID is empty and pruning deletes every record
  with a non-empty ID, rather than none of them
  (`PruneWithoutTimesDeletesAll`). A single such record is updated and then
  deleted in the same run (`SingleUntimedRecordIsUpdatedThenDeleted`).
- One would expect the single record left after pruning to carry the desired
  IP. The code does not establish this. The update goes to the first listed
  record, but pruning keeps the latest one. When the latest record is not
  first, the updated record is deleted, and the record that survives never
  receives the new content (`UpdatedRecordIsPrunedWhenNotLatest`).

## Model

| member | source | states |
|---|---|---|
| `Election.ElectLatestSpec` | dns/cloudflare.go:165-180 | The election never ends below the zero time, and no parsed record time exceeds it. It keeps the start state (zero time, empty ID) unless it moved. When it moved, it holds the time and ID of a record that is latest: electable, no record later, no earlier record with the same time. |
| `Election.NoneElectable` | dns/cloudflare.go:165-180 | The election keeps the start state exactly when no record has a parsable time after the zero time (CreatedOn, else ModifiedOn). |
| `Election.ElectsTheLatest` | dns/cloudflare.go:176-179 | The election picks the ID of whichever record is latest. A later record replaces it only on a strictly later time, so the first of equal times wins. |
| `Election.LatestIsUnique` | dns/cloudflare.go:176-179 | At most one record of a list is the latest, so the elected record is well defined. |
| `Election.LatestRecordId` | dns/cloudflare.go:165-180 | The loop updating `latestTime`/`latestRecordID` (CreatedOn first, ModifiedOn fallback, unparsable records skipped) returns the ID the election fold computes. |
| `Pruning.DeleteCalls` | dns/cloudflare.go:183-193 | Every delete targets the zone and a record ID of the list, never the kept ID. Every listed record whose ID is not the kept ID gets a delete. There are at most as many deletes as records. |
| `Pruning.DeleteCallsCount` | dns/cloudflare.go:183-193 | The number of deletes is the number of listed records whose ID differs from the kept ID. |
| `Pruning.CleanDuplicateRecords` | dns/cloudflare.go:163-194 | The two loops issue exactly the deletes, in list order, of the records of the original list whose ID differs from the elected ID. No delete reply is consulted. |
| `Pruning.PruneKeepsOnlyTheLatest` | dns/cloudflare.go:163-194 | With distinct IDs and a latest record, every record except the latest is deleted and the latest is kept: exactly n-1 deletes. |
| `Pruning.PruneWithoutTimesDeletesAll` | dns/cloudflare.go:165-193 | With no record electable, the elected ID is empty, and a record is deleted exactly when its ID is non-empty. |
| `Writes.WriteStatus` | dns/cloudflare.go:134-140 | A write yields Success exactly when the transport returned a response whose `success` is true. Otherwise it yields Failed. |
| `Writes.Create` | dns/cloudflare.go:123-141 | The POST targets the zone and carries the record type, the subdomain label, the desired IP, the configured TTL and the proxy flag. The status follows the write rule. |
| `Writes.Modify` | dns/cloudflare.go:143-161 | The PUT targets the first listed record's ID. It keeps that record's type, name and proxied flag, and sets the desired IP and the configured TTL. The status follows the write rule. |
| `Reconcile.ReconcileDomain` | dns/cloudflare.go:72-114 | The per-domain body yields the requests and status of `DomainRun`: lookup, query, then create or update, then pruning. A failure returns early. |
| `Reconcile.FlattenSplit` | dns/cloudflare.go:72-114 | A pass's requests are those of the domains before `k`, then domain `k`'s, then those after it. |
| `Reconcile.AddUpdateRecordType` | dns/cloudflare.go:66-115 | An empty IP issues nothing and touches no domain. Otherwise each domain gets exactly its own reconciliation, whatever happened to earlier domains, and the requests are issued domain by domain. |
| `Reconcile.AddUpdateDomainRecords` | dns/cloudflare.go:60-64 | The "A" pass runs first and the "AAAA" pass second. Its requests are those of the first followed by those of the second. |
| `Reconcile.ZoneFailureStopsDomain` | dns/cloudflare.go:74-84 | A zone-lookup transport error or empty zone list leaves the domain Failed. Only the lookup is issued: no query, create, update or delete. |
| `Reconcile.QueryFailureSkipsWrites` | dns/cloudflare.go:89-103 | A record-query transport error or `success:false` leaves the domain Failed. The requests are exactly the zone lookup of the top domain and the record query of the zone, type and full name. No create, update or delete is issued. |
| `Reconcile.StatusRule` | dns/cloudflare.go:74-160 | A domain ends Success exactly when the zone lookup and record query succeed and the write reply is a response with `success` true. |
| `Reconcile.EmptyListCreatesOnce` | dns/cloudflare.go:106-130 | An empty record list issues exactly one create, with type, subdomain, IP, TTL and proxy flag. It issues no update and, since pruning walks the empty list, no delete. |
| `Reconcile.NonEmptyListUpdatesFirst` | dns/cloudflare.go:106-153 | A non-empty record list issues exactly one update, on the first record, copying its type, name and proxied flag and setting the desired IP and TTL. No other request is an update, and no create is issued. |
| `Reconcile.DeletesAreOnlyDeletes` | dns/cloudflare.go:183-193 | Pruning issues only deletes: never a create or an update. |
| `Reconcile.WriteIsFollowedByPruning` | dns/cloudflare.go:105-113 | After the write, and whatever its outcome, every request is a delete of a non-elected ID. Every listed record with a non-elected ID is deleted. |
| `Reconcile.SingleTimedRecordIsNotPruned` | dns/cloudflare.go:106-193 | A single listed record whose time is after Go's zero time takes the update path. Exactly three requests are issued, so that record is not deleted. |
| `Reconcile.SingleUntimedRecordIsUpdatedThenDeleted` | dns/cloudflare.go:143-193 | A single record with no parsable time and a non-empty ID is updated and then deleted. |
| `Reconcile.UpdatedRecordIsPrunedWhenNotLatest` | dns/cloudflare.go:143-193 | With distinct IDs and the latest record not first, the updated first record is deleted. The latest record is kept but never updated. |
| `Reconcile.SkippedTypeIssuesNothing` | dns/cloudflare.go:66-70 | An empty address from the IP source issues no request for that record type. |
| `Reconcile.PassIsDomainByDomain` | dns/cloudflare.go:72-114 | In a pass, domain `k`'s requests are exactly its own reconciliation. They sit between those of the earlier and the later domains. |

## Left out

- `request` (dns/cloudflare.go:196-215): the HTTP client, the 30-second timeout, the bearer and content-type headers, and JSON encoding and decoding. Each exchange is a `Reply` input instead: a decoded envelope or a transport error.
- `getZones` and the endpoint strings: a request records only the fields that select its target (top domain, zone ID, record type and name, page size, record ID).
- RFC 3339 parsing (`time.Parse`): a `Record` carries the parse outcome of its `created_on` and `modified_on` as `Option<Time>`. `Time` is an instant counted from Go's zero time, so a parsed time at or before the zero time is never elected.
- Delete replies: they reach only the log (dns/cloudflare.go:187-191). The model takes none, so neither the status nor the remaining deletes can depend on them.
- Logging (`util.Log`) and the provider messages it prints.
- `GetNewIpResult`, `GetSubDomain`, `GetTopDomain`: the IP source's address and domains are the `IpResult` input, and a `Domain` carries its subdomain label and top domain as those functions return them.
- `NewCloudflare`, the `DNSConfig` fields other than TTL and proxy flag, and the JSON tags.
- Reconcile.ReconcileDomain: the status is the last value assigned on the domain's path. `create` and `modify` take `config.Domain` by value, and `config.Domain` is not part of this model, so whether those writes reach the caller's domain is not modelled.
- Writes.Modify: requires a non-empty list, as its only caller guarantees. The model does not cover the index panic a direct empty call would raise.
- Provider state: the model lists the requests issued but does not apply them to a record store. Convergence is therefore stated over the deletes issued, not over the records that remain.
