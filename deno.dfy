/** The Deno adapter: eager body reading except for bodiless methods, and `undefined` for a missing query. */
module DenoRuntime {
  import opened Native
  import opened RequestNormalizer
  import opened ResponseMaterializer

  /** `toGleamRequest`: GET, HEAD, OPTIONS and TRACE (in any case) get body `""` without a drain. */
  method ToGleamRequest(req: NativeRequest) returns (r: Settled<Request>)
    requires req.Valid()
    modifies req
    ensures req.Valid()
    ensures !ShouldReadBody(req.httpMethod) ==> unchanged(req) && r == Resolved(Canonical(Deno, req, ""))
    ensures ShouldReadBody(req.httpMethod) ==> req.bodyUsed == (old(req.bodyUsed) || req.payload.Stream?)
    ensures ShouldReadBody(req.httpMethod) && req.payload.Stream? && old(req.bodyUsed) ==>
      r == Rejected(OtherError(Unusable))
    ensures ShouldReadBody(req.httpMethod) && !old(req.bodyUsed) ==>
      r == if req.payload.Faulty() then Rejected(OtherError(req.payload.fault.value))
           else Resolved(Canonical(Deno, req, req.payload.Text()))
    ensures r.Resolved? ==> (r.value.query == Undefined <==> req.url.search == "")
  {
    r := Normalize(Deno, req);
  }

  /** `toDenoResponse`: status and body pass through; headers are set in order, the last value of a key winning. */
  method ToDenoResponse<B>(resp: Response<B>) returns (native: NativeResponse<B>)
    ensures native.status == resp.status && native.body == resp.body
    ensures native.headers == if resp.headers.Some? then LastWins(resp.headers.value) else map[]
  {
    native := Materialize(resp);
  }
}
