/** The Cloudflare Workers adapter: the body is always drained, and a missing query is `undefined`. */
module WorkersRuntime {
  import opened Native
  import opened RequestNormalizer
  import opened ResponseMaterializer

  /** `toGleamRequest`: the body is drained as text whatever the method. */
  method ToGleamRequest(req: NativeRequest) returns (r: Settled<Request>)
    requires req.Valid()
    modifies req
    ensures req.Valid()
    ensures req.bodyUsed == (old(req.bodyUsed) || req.payload.Stream?)
    ensures req.payload.Stream? && old(req.bodyUsed) ==> r == Rejected(OtherError(Unusable))
    ensures !old(req.bodyUsed) ==>
      r == if req.payload.Faulty() then Rejected(OtherError(req.payload.fault.value))
           else Resolved(Canonical(Workers, req, req.payload.Text()))
    ensures r.Resolved? ==> (r.value.query == Undefined <==> req.url.search == "")
  {
    r := Normalize(Workers, req);
  }

  /** `toWorkersResponse`: status and body pass through; headers are set in order, the last value of a key winning. */
  method ToWorkersResponse<B>(resp: Response<B>) returns (native: NativeResponse<B>)
    ensures native.status == resp.status && native.body == resp.body
    ensures native.headers == if resp.headers.Some? then LastWins(resp.headers.value) else map[]
  {
    native := Materialize(resp);
  }
}
