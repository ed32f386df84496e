/**
 * Turning a host request into the canonical Gleam request record (`toGleamRequest`), shared
 * by the Node, Deno and Workers adapters. They differ in two places only: Workers always
 * drains the body, and Node marks a missing query as `null` where the others leave it `undefined`.
 */
module RequestNormalizer {
  import opened Results
  import opened Native

  /** The host runtimes whose adapters normalise requests. */
  datatype Runtime = Node | Deno | Workers

  /** The canonical `query` field: the query text, or the runtime's marker for "none". */
  datatype Query = Search(text: string) | Null | Undefined

  /** The canonical request record. */
  datatype Request = Request(
    httpMethod: string,
    headers: seq<Header>,
    body: string,
    scheme: string,
    host: string,
    port: nat,
    path: string,
    query: Query)

  /** `toUpperCase` on one character: ASCII letters only. */
  function UpperChar(c: char): char
  {
    if 'a' <= c <= 'z' then (c as int - 32) as char else c
  }

  /** `toUpperCase` on a string, character by character. */
  function Upper(s: string): string
  {
    seq(|s|, i requires 0 <= i < |s| => UpperChar(s[i]))
  }

  /** Two strings that differ at most in the case of their letters. */
  predicate SameIgnoringCase(a: string, b: string)
  {
    |a| == |b| && forall i :: 0 <= i < |a| ==> UpperChar(a[i]) == UpperChar(b[i])
  }

  /** The methods whose body is never drained by the Node and Deno adapters. */
  const Bodiless: seq<string> := ["GET", "HEAD", "OPTIONS", "TRACE"]

  /** `shouldReadBody`: the upper-cased method is not one of the bodiless ones. */
  predicate ShouldReadBody(httpMethod: string)
  {
    Upper(httpMethod) !in Bodiless
  }

  /** Whether the given runtime's adapter drains the body of a request with this method. */
  predicate ReadsBody(rt: Runtime, httpMethod: string)
  {
    rt == Workers || ShouldReadBody(httpMethod)
  }

  /** `protocol.replace(':', '')`: a string pattern replaces its first occurrence only. */
  function DropFirstColon(s: string): string
  {
    if s == [] then []
    else if s[0] == ':' then s[1..]
    else [s[0]] + DropFirstColon(s[1..])
  }

  /** The shape `URL.protocol` always has: a scheme followed by one `:`. */
  predicate ProtocolShape(protocol: string)
  {
    |protocol| > 0 && protocol[|protocol| - 1] == ':' && ':' !in protocol[..|protocol| - 1]
  }

  /** The canonical port: the explicit one, else 443 for `https:`, else 80. */
  function Port(url: Url): nat
  {
    match url.port
    case Some(p) => p
    case None => if url.protocol == "https:" then 443 else 80
  }

  /** The marker a runtime uses for a request without a query. */
  function NoQuery(rt: Runtime): Query
  {
    if rt == Node then Null else Undefined
  }

  /** The canonical query: `search` without its first character when non-empty. */
  function QueryOf(rt: Runtime, search: string): Query
  {
    if search != "" then Search(search[1..]) else NoQuery(rt)
  }

  /** The `search` string a canonical query stands for (the inverse of `QueryOf`). */
  function SearchOf(q: Query): string
  {
    if q.Search? then "?" + q.text else ""
  }

  lemma UpperIsIdempotent(s: string)
    ensures Upper(Upper(s)) == Upper(s)
  {
  }

  /** `Upper(m)` is a given upper-case word exactly when `m` is that word up to case. */
  lemma UpperMatches(m: string, w: string)
    requires Upper(w) == w
    ensures Upper(m) == w <==> SameIgnoringCase(m, w)
  {
    if SameIgnoringCase(m, w) {
      assert |Upper(m)| == |w|;
      forall i | 0 <= i < |w| ensures Upper(m)[i] == w[i] {
        assert UpperChar(w[i]) == Upper(w)[i];
      }
    }
    if Upper(m) == w {
      forall i | 0 <= i < |m| ensures UpperChar(m[i]) == UpperChar(w[i]) {
        assert Upper(m)[i] == UpperChar(m[i]);
        assert Upper(w)[i] == UpperChar(w[i]);
      }
    }
  }

  /** `shouldReadBody` is false exactly for GET, HEAD, OPTIONS and TRACE, in any letter case. */
  lemma ShouldReadBodyIgnoresCase(m: string)
    ensures !ShouldReadBody(m) <==> exists w :: w in Bodiless && SameIgnoringCase(m, w)
    ensures ShouldReadBody(Upper(m)) == ShouldReadBody(m)
  {
    forall w | w in Bodiless ensures Upper(m) == w <==> SameIgnoringCase(m, w) {
      assert Upper(w) == w;
      UpperMatches(m, w);
    }
    UpperIsIdempotent(m);
  }

  /** Removing the first `:` keeps the text on both sides of it; without a `:` nothing changes. */
  lemma {:induction false} DropFirstColonAt(s: string, k: nat)
    requires k <= |s| && ':' !in s[..k]
    ensures k < |s| && s[k] == ':' ==> DropFirstColon(s) == s[..k] + s[k + 1..]
    ensures k == |s| ==> DropFirstColon(s) == s
  {
    if s != [] && k > 0 {
      assert s[0] == s[..k][0];
      assert s[1..][..k - 1] == s[1..k];
      DropFirstColonAt(s[1..], k - 1);
      assert s == [s[0]] + s[1..];
      assert s[..k] == [s[0]] + s[1..][..k - 1];
    }
  }

  /** The scheme of a well-formed protocol is that protocol without its trailing `:`. */
  lemma SchemeOfProtocol(protocol: string)
    requires ProtocolShape(protocol)
    ensures DropFirstColon(protocol) + ":" == protocol
    ensures ':' !in DropFirstColon(protocol)
  {
    var k := |protocol| - 1;
    DropFirstColonAt(protocol, k);
    assert protocol[k + 1..] == [];
    assert protocol == protocol[..k] + [':'];
  }

  /** A defaulted port follows the scheme: 443 exactly for `https`, 80 for every other scheme. */
  lemma DefaultPortFollowsScheme(url: Url)
    requires url.port.None? && ProtocolShape(url.protocol)
    ensures Port(url) == if DropFirstColon(url.protocol) == "https" then 443 else 80
  {
    SchemeOfProtocol(url.protocol);
    if DropFirstColon(url.protocol) == "https" {
      assert url.protocol == "https:";
    }
  }

  /** The canonical query gives back the `search` it came from, whatever the runtime. */
  lemma QueryRoundTrip(rt: Runtime, search: string)
    requires search == "" || search[0] == '?'
    ensures SearchOf(QueryOf(rt, search)) == search
    ensures QueryOf(rt, search).Search? <==> search != ""
  {
    if search != "" {
      assert search == [search[0]] + search[1..];
    }
  }

  /** What the URL-derived fields of the canonical record say about the URL they come from. */
  lemma UrlFields(rt: Runtime, url: Url)
    ensures ProtocolShape(url.protocol) ==>
      DropFirstColon(url.protocol) + ":" == url.protocol && ':' !in DropFirstColon(url.protocol)
    ensures url.port.None? && ProtocolShape(url.protocol) ==>
      Port(url) == if DropFirstColon(url.protocol) == "https" then 443 else 80
    ensures url.search == "" || url.search[0] == '?' ==> SearchOf(QueryOf(rt, url.search)) == url.search
  {
    if ProtocolShape(url.protocol) {
      SchemeOfProtocol(url.protocol);
      if url.port.None? {
        DefaultPortFollowsScheme(url);
      }
    }
    if url.search == "" || url.search[0] == '?' {
      QueryRoundTrip(rt, url.search);
    }
  }

  /**
   * The record `toGleamRequest` builds around an already-read body: method upper-cased, the
   * header list as the host lists it, the scheme (the protocol without its `:`), the port
   * (explicit, else the scheme's default) and the query (the search text without its `?`).
   */
  function Canonical(rt: Runtime, req: NativeRequest, body: string): (r: Request)
    ensures r.httpMethod == Upper(req.httpMethod)
    ensures r.httpMethod in Bodiless <==> exists w :: w in Bodiless && SameIgnoringCase(req.httpMethod, w)
    ensures r.headers == req.headers && r.body == body
    ensures r.host == req.url.hostname && r.path == req.url.pathname
    ensures ProtocolShape(req.url.protocol) ==> r.scheme + ":" == req.url.protocol && ':' !in r.scheme
    ensures req.url.port.Some? ==> r.port == req.url.port.value
    ensures req.url.port.None? && ProtocolShape(req.url.protocol) ==> r.port == if r.scheme == "https" then 443 else 80
    ensures r.query.Search? <==> req.url.search != ""
    ensures req.url.search == "" || req.url.search[0] == '?' ==> SearchOf(r.query) == req.url.search
    ensures r.query.Null? <==> rt == Node && req.url.search == ""
  {
    ShouldReadBodyIgnoresCase(req.httpMethod);
    UrlFields(rt, req.url);
    Request(Upper(req.httpMethod), req.headers, body, DropFirstColon(req.url.protocol), req.url.hostname,
            Port(req.url), req.url.pathname, QueryOf(rt, req.url.search))
  }

  /**
   * `toGleamRequest`: drain the body as text when the runtime reads bodies for this method,
   * else use `""` and leave the request untouched; a failed drain rejects the whole call.
   */
  method Normalize(rt: Runtime, req: NativeRequest) returns (r: Settled<Request>)
    requires req.Valid()
    modifies req
    ensures req.Valid()
    ensures !ReadsBody(rt, req.httpMethod) ==> unchanged(req) && r == Resolved(Canonical(rt, req, ""))
    ensures ReadsBody(rt, req.httpMethod) ==> req.bodyUsed == (old(req.bodyUsed) || req.payload.Stream?)
    ensures ReadsBody(rt, req.httpMethod) && req.payload.Stream? && old(req.bodyUsed) ==>
      r == Rejected(OtherError(Unusable))
    ensures ReadsBody(rt, req.httpMethod) && !(req.payload.Stream? && old(req.bodyUsed)) ==>
      r == if req.payload.Faulty() then Rejected(OtherError(req.payload.fault.value))
           else Resolved(Canonical(rt, req, req.payload.Text()))
  {
    var body := "";
    if ReadsBody(rt, req.httpMethod) {
      var s := req.Text();
      match s {
        case Rejected(e) => return Rejected(e);
        case Resolved(t) => body := t;
      }
    }
    r := Resolved(Canonical(rt, req, body));
  }
}
