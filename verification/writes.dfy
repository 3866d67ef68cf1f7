/**
 * `create` and `modify`: the one write request of a domain and the status
 * its reply leads to.
 */
module Writes {
  import opened Types

  /** A write request together with the status it assigns. */
  datatype Write = Write(request: Request, status: Status)

  /** The status rule shared by `create` and `modify`. */
  function WriteStatus(reply: Reply<Envelope<Zone>>): (s: Status)
    ensures s == Success <==> reply.Received? && reply.body.success
  {
    if reply.TransportError? || !reply.body.success then Failed else Success
  }

  /** `create`: a POST carrying the record type, the subdomain label, the
      desired IP and the configured TTL and proxy flag. */
  function Create(cfg: Config, zoneId: string, domain: Domain, recordType: string, ipAddr: string,
                  reply: Reply<Envelope<Zone>>): (w: Write)
    ensures w.request.CreateRecord? && w.request.zoneId == zoneId
    ensures w.request.body.rtype == recordType && w.request.body.name == domain.subDomain
    ensures w.request.body.content == ipAddr
    ensures w.request.body.ttl == cfg.ttl && w.request.body.proxied == cfg.proxy
    ensures w.status == Success <==> reply.Received? && reply.body.success
  {
    Write(CreateRecord(zoneId, RecordBody(recordType, domain.subDomain, ipAddr, cfg.ttl, cfg.proxy)),
          WriteStatus(reply))
  }

  /** `modify`: a PUT on the first listed record that keeps its type, name
      and proxy flag and replaces its content and TTL. */
  function Modify(cfg: Config, records: seq<Record>, zoneId: string, ipAddr: string,
                  reply: Reply<Envelope<Zone>>): (w: Write)
    requires |records| > 0
    ensures w.request.UpdateRecord? && w.request.zoneId == zoneId
    ensures w.request.recordId == records[0].id
    ensures w.request.body.rtype == records[0].rtype && w.request.body.name == records[0].name
    ensures w.request.body.proxied == records[0].proxied
    ensures w.request.body.content == ipAddr && w.request.body.ttl == cfg.ttl
    ensures w.status == Success <==> reply.Received? && reply.body.success
  {
    var first := records[0];
    Write(UpdateRecord(zoneId, first.id, RecordBody(first.rtype, first.name, ipAddr, cfg.ttl, first.proxied)),
          WriteStatus(reply))
  }
}
