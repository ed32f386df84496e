/** The Node adapter: eager body reading except for bodiless methods, and `null` for a missing query. */
module NodeRuntime {
  import opened Native
  import opened RequestNormalizer
  import opened ResponseMaterializer

  /** `toGleamRequest`: GET, HEAD, OPTIONS and TRACE (in any case) get body `""` without a drain. */
  method ToGleamRequest(req: NativeRequest) returns (r: Settled<Request>)
    requires req.Valid()
    modifies req
    ensures req.Valid()
    ensures !ShouldReadBody(req.httpMethod) ==> unchanged(req) && r == Resolved(Canonical(Node, req, ""))
    ensures ShouldReadBody(req.httpMethod) ==> req.bodyUsed == (old(req.bodyUsed) || req.payload.Stream?)
    ensures ShouldReadBody(req.httpMethod) && req.payload.Stream? && old(req.bodyUsed) ==>
      r == Rejected(OtherError(Unusable))
    ensures ShouldReadBody(req.httpMethod) && !old(req.bodyUsed) ==>
      r == if req.payload.Faulty() then Rejected(OtherError(req.payload.fault.value))
           else Resolved(Canonical(Node, req, req.payload.Text()))
    ensures r.Resolved? ==> (r.value.query == Null <==> req.url.search == "")
  {
    r := Normalize(Node, req);
  }

  /** `toNodeResponse`: status and body pass through; headers are set in order, the last value of a key winning. */
  method ToNodeResponse<B>(resp: Response<B>) returns (native: NativeResponse<B>)
    ensures native.status == resp.status && native.body == resp.body
    ensures native.headers == if resp.headers.Some? then LastWins(resp.headers.value) else map[]
  {
    native := Materialize(resp);
  }
}
