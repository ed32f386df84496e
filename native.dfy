/**
 * The host runtime's fetch-style objects that the adapters talk to: the incoming
 * `Request` (whose body can be drained once), its already-parsed URL, and the
 * `Headers` table a response is built with. Only what the adapters observe is modelled.
 */
module Native {
  import opened Results

  /** One header entry, in the `[key, value]` shape the adapters iterate over. */
  type Header = (string, string)

  /** What a rejected promise carries: `SyntaxError` is told apart because `readJson` catches it separately. */
  datatype Thrown = SyntaxError(message: string) | OtherError(message: string)

  /** What an awaited promise settles to. */
  datatype Settled<+T> = Resolved(value: T) | Rejected(thrown: Thrown)

  /** The outcome of the (uninterpreted) JSON parser: a value, or a syntax failure with its message. */
  datatype Parsed<+J> = Parsed(value: J) | Malformed(message: string)

  /**
   * The body behind a request: none at all (a null body), or a single-use stream holding
   * the text and the bytes it would deliver, and the fault draining it would raise, if any.
   */
  datatype Payload = NoBody | Stream(text: string, bytes: seq<bv8>, fault: Option<string>)
  {
    /** Draining this payload raises a low-level fault. */
    predicate Faulty() { Stream? && fault.Some? }

    /** The text a successful drain yields; a null body reads as the empty string. */
    function Text(): string { if Stream? then text else "" }

    /** The bytes a successful drain yields; a null body reads as zero bytes. */
    function Bytes(): seq<bv8> { if Stream? then bytes else [] }
  }

  /** The components of `new URL(req.url)` the normaliser reads; `port` is already parsed, absent when `url.port` is empty. */
  datatype Url = Url(protocol: string, hostname: string, port: Option<nat>, pathname: string, search: string)

  /** Message of the error a host raises when a used body is drained again. */
  const Unusable: string := "Body is unusable"

  /**
   * The host's incoming request. Only `bodyUsed` changes: draining a stream marks it used,
   * whether the drain succeeds or faults; a request without a body never becomes used.
   */
  class NativeRequest {
    const httpMethod: string
    const url: Url
    const headers: seq<Header>
    const payload: Payload
    var bodyUsed: bool

    /** A request without a body is never used: only draining a stream sets `bodyUsed`. */
    ghost predicate Valid()
      reads this
    {
      payload.NoBody? ==> !bodyUsed
    }

    constructor (httpMethod: string, url: Url, headers: seq<Header>, payload: Payload)
      ensures this.httpMethod == httpMethod && this.url == url && this.headers == headers
      ensures this.payload == payload && !bodyUsed && Valid()
    {
      this.httpMethod := httpMethod;
      this.url := url;
      this.headers := headers;
      this.payload := payload;
      bodyUsed := false;
    }

    /** What draining the body as `what` settles to, given whether it was used before. */
    function Drain<T>(used: bool, what: T): Settled<T>
    {
      if payload.Stream? && used then Rejected(OtherError(Unusable))
      else if payload.Faulty() then Rejected(OtherError(payload.fault.value))
      else Resolved(what)
    }

    /** `req.text()`. */
    method Text() returns (s: Settled<string>)
      requires Valid()
      modifies this
      ensures Valid()
      ensures bodyUsed == (old(bodyUsed) || payload.Stream?)
      ensures payload.NoBody? ==> s == Resolved("")
      ensures payload.Stream? && old(bodyUsed) ==> s == Rejected(OtherError(Unusable))
      ensures payload.Stream? && !old(bodyUsed) ==>
        s == if payload.Faulty() then Rejected(OtherError(payload.fault.value)) else Resolved(payload.text)
    {
      s := Drain(bodyUsed, payload.Text());
      bodyUsed := bodyUsed || payload.Stream?;
    }

    /** `req.arrayBuffer()`, viewed as the bytes of the buffer. */
    method ArrayBuffer() returns (s: Settled<seq<bv8>>)
      requires Valid()
      modifies this
      ensures Valid()
      ensures bodyUsed == (old(bodyUsed) || payload.Stream?)
      ensures payload.NoBody? ==> s == Resolved([])
      ensures payload.Stream? && old(bodyUsed) ==> s == Rejected(OtherError(Unusable))
      ensures payload.Stream? && !old(bodyUsed) ==>
        s == if payload.Faulty() then Rejected(OtherError(payload.fault.value)) else Resolved(payload.bytes)
    {
      s := Drain(bodyUsed, payload.Bytes());
      bodyUsed := bodyUsed || payload.Stream?;
    }

    /** `req.json()`: drain as text, then parse; a parse failure rejects with a `SyntaxError`. */
    method Json<J>(parse: string -> Parsed<J>) returns (s: Settled<J>)
      requires Valid()
      modifies this
      ensures Valid()
      ensures bodyUsed == (old(bodyUsed) || payload.Stream?)
      ensures payload.Stream? && old(bodyUsed) ==> s == Rejected(OtherError(Unusable))
      ensures payload.Faulty() && !old(bodyUsed) ==> s == Rejected(OtherError(payload.fault.value))
      ensures !payload.Faulty() && (payload.NoBody? || !old(bodyUsed)) ==>
        s == match parse(payload.Text())
             case Parsed(v) => Resolved(v)
             case Malformed(m) => Rejected(SyntaxError(m))
    {
      var text := Text();
      match text
      case Rejected(e) =>
        s := Rejected(e);
      case Resolved(t) =>
        match parse(t)
        case Parsed(v) => s := Resolved(v);
        case Malformed(m) => s := Rejected(SyntaxError(m));
    }
  }

  /** The host's `Headers` table, as far as `set` goes: a key maps to the last value set for it. */
  class Headers {
    var entries: map<string, string>

    constructor ()
      ensures entries == map[]
    {
      entries := map[];
    }

    /** `headers.set(key, value)`: replaces any earlier value of `key`. */
    method Set(key: string, value: string)
      modifies this
      ensures entries == old(entries)[key := value]
    {
      entries := entries[key := value];
    }
  }
}
