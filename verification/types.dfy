/**
 * The values the Cloudflare reconciler works with: the provider's response
 * envelopes and records, the requests it issues, the configuration it reads
 * and the status it assigns to a domain.
 */
module Types {

  datatype Option<+T> = None | Some(value: T)

  /** The outcome of one HTTP exchange: a decoded response body, or a
      transport error (network failure, timeout or undecodable JSON). */
  datatype Reply<+T> = Received(body: T) | TransportError

  datatype ApiError = ApiError(code: int, message: string)

  /** The provider's JSON envelope; `result` is the list of zones or records. */
  datatype Envelope<+T> = Envelope(
    success: bool,
    messages: seq<string>,
    errors: seq<ApiError>,
    result: seq<T>)

  datatype Zone = Zone(id: string, name: string)

  /** An instant, counted from Go's zero time (0001-01-01T00:00:00Z). */
  type Time = int

  /** The zero `time.Time{}` the election starts from. */
  const ZeroTime: Time := 0

  /** A DNS record as the provider lists it.  `createdOn` and `modifiedOn` hold
      the outcome of parsing the `created_on` and `modified_on` strings as
      RFC 3339 timestamps: `None` when the string does not parse. */
  datatype Record = Record(
    id: string,
    rtype: string,
    name: string,
    content: string,
    proxied: bool,
    createdOn: Option<Time>,
    modifiedOn: Option<Time>)

  /** The part of the DNS configuration the reconciler reads. */
  datatype Config = Config(ttl: string, proxy: bool)

  /** A managed domain, as its subdomain label and its top domain. */
  datatype Domain = Domain(subDomain: string, topDomain: string)

  function FullName(d: Domain): (name: string)
  {
    d.subDomain + "." + d.topDomain
  }

  /** The page size of the record query. */
  const PageSize: nat := 50

  /** The body of a create or update request. */
  datatype RecordBody = RecordBody(
    rtype: string,
    name: string,
    content: string,
    ttl: string,
    proxied: bool)

  /** One request to the provider's API. */
  datatype Request =
    | ListZones(topDomain: string)
    | ListRecords(zoneId: string, rtype: string, name: string, perPage: nat)
    | CreateRecord(zoneId: string, body: RecordBody)
    | UpdateRecord(zoneId: string, recordId: string, body: RecordBody)
    | DeleteRecord(zoneId: string, recordId: string)

  datatype Verb = Get | Post | Put | Delete

  function VerbOf(req: Request): (v: Verb)
  {
    match req
    case ListZones(_) => Get
    case ListRecords(_, _, _, _) => Get
    case CreateRecord(_, _) => Post
    case UpdateRecord(_, _, _) => Put
    case DeleteRecord(_, _) => Delete
  }

  /** How many of `calls` use the HTTP verb `v`. */
  function CountVerb(calls: seq<Request>, v: Verb): (n: nat)
    ensures n <= |calls|
  {
    if calls == [] then 0
    else CountVerb(calls[..|calls| - 1], v) + (if VerbOf(calls[|calls| - 1]) == v then 1 else 0)
  }

  lemma {:induction false} CountVerbAppend(a: seq<Request>, b: seq<Request>, v: Verb)
    ensures CountVerb(a + b, v) == CountVerb(a, v) + CountVerb(b, v)
    decreases |b|
  {
    if b == [] {
      assert a + b == a;
    } else {
      var b' := b[..|b| - 1];
      assert (a + b)[..|a + b| - 1] == a + b';
      CountVerbAppend(a, b', v);
    }
  }

  lemma {:induction false} CountVerbZero(calls: seq<Request>, v: Verb)
    ensures CountVerb(calls, v) == 0 <==> forall k :: 0 <= k < |calls| ==> VerbOf(calls[k]) != v
    decreases |calls|
  {
    if calls != [] {
      var p := calls[..|calls| - 1];
      CountVerbZero(p, v);
      assert forall k :: 0 <= k < |p| ==> p[k] == calls[k];
    }
  }

  /** The value `addUpdateDomainRecords`, `create` and `modify` assign to a
      domain's `UpdateStatus`. */
  datatype Status = Failed | Success
}
