/**
 * Reading a request body as text, as bytes or as JSON (`readText`, `readBits`, `readJson`).
 * Three of the four body variants are values and read the same every time; the fourth wraps
 * a live request whose body can be drained once, after which every read reports `AlreadyRead`.
 */
module BodyReader {
  import opened Results
  import opened Native

  /** Why a read failed. */
  datatype BodyReadError =
    | AlreadyRead
    | ParseError(message: string)
    | ReadError(message: string)
    | UnsupportedBodyType(message: string)

  /** A message body in its current form. */
  datatype Body =
    | StringBody(text: string)
    | BitArrayBody(bits: seq<bv8>)
    | EmptyBody
    | RequestBody(req: NativeRequest)
  {
    /** The objects a read of this body may change: the live request, if there is one. */
    function Handles(): set<object>
    {
      if RequestBody? then {req} else {}
    }

    /** A live request in this body satisfies the request's own invariant. */
    ghost predicate Valid()
      reads Handles()
    {
      RequestBody? ==> req.Valid()
    }
  }

  /** The three ways of reading a body. */
  datatype ReadKind = TextRead | BitsRead | JsonRead

  const EmptyJsonMessage: string := "Cannot parse JSON from empty body"

  /** The message of an `UnsupportedBodyType` error, naming the read and the variant's class. */
  function Unsupported(what: string, variant: string): string
  {
    "Cannot read " + what + " from body type: " + variant
  }

  /** How a parser outcome becomes a read result: a syntax failure is a `ParseError`. */
  function FromParse<J>(p: Parsed<J>): Result<J, BodyReadError>
  {
    match p
    case Parsed(v) => Ok(v)
    case Malformed(m) => Error(ParseError(m))
  }

  /** `readText`. */
  method ReadText(body: Body) returns (r: Result<string, BodyReadError>)
    requires body.Valid()
    modifies body.Handles()
    ensures body.Valid()
    ensures body.StringBody? ==> r == Ok(body.text)
    ensures body.EmptyBody? ==> r == Ok("")
    ensures body.BitArrayBody? ==> r == Error(UnsupportedBodyType(Unsupported("text", "BitArrayBody")))
    ensures body.RequestBody? && old(body.req.bodyUsed) ==> r == Error(AlreadyRead) && unchanged(body.req)
    ensures body.RequestBody? && !old(body.req.bodyUsed) ==>
      && body.req.bodyUsed == body.req.payload.Stream?
      && r == if body.req.payload.Faulty() then Error(ReadError(body.req.payload.fault.value))
              else Ok(body.req.payload.Text())
  {
    match body
    case StringBody(s) =>
      r := Ok(s);
    case EmptyBody =>
      r := Ok("");
    case RequestBody(req) =>
      if req.bodyUsed {
        return Error(AlreadyRead);
      }
      var s := req.Text();
      match s {
        case Resolved(t) => r := Ok(t);
        case Rejected(e) => r := Error(ReadError(e.message));
      }
    case BitArrayBody(_) =>
      r := Error(UnsupportedBodyType(Unsupported("text", "BitArrayBody")));
  }

  /** `readBits`. */
  method ReadBits(body: Body) returns (r: Result<seq<bv8>, BodyReadError>)
    requires body.Valid()
    modifies body.Handles()
    ensures body.Valid()
    ensures body.BitArrayBody? ==> r == Ok(body.bits)
    ensures body.EmptyBody? ==> r == Ok([])
    ensures body.StringBody? ==> r == Error(UnsupportedBodyType(Unsupported("bits", "StringBody")))
    ensures body.RequestBody? && old(body.req.bodyUsed) ==> r == Error(AlreadyRead) && unchanged(body.req)
    ensures body.RequestBody? && !old(body.req.bodyUsed) ==>
      && body.req.bodyUsed == body.req.payload.Stream?
      && r == if body.req.payload.Faulty() then Error(ReadError(body.req.payload.fault.value))
              else Ok(body.req.payload.Bytes())
  {
    match body
    case BitArrayBody(b) =>
      r := Ok(b);
    case EmptyBody =>
      r := Ok([]);
    case RequestBody(req) =>
      if req.bodyUsed {
        return Error(AlreadyRead);
      }
      var s := req.ArrayBuffer();
      match s {
        case Resolved(b) => r := Ok(b);
        case Rejected(e) => r := Error(ReadError(e.message));
      }
    case StringBody(_) =>
      r := Error(UnsupportedBodyType(Unsupported("bits", "StringBody")));
  }

  /** `readJson`, with `parse` standing for the host's JSON parser. */
  method ReadJson<J>(body: Body, parse: string -> Parsed<J>) returns (r: Result<J, BodyReadError>)
    requires body.Valid()
    modifies body.Handles()
    ensures body.Valid()
    ensures body.EmptyBody? ==> r == Error(ParseError(EmptyJsonMessage))
    ensures body.StringBody? ==> r == FromParse(parse(body.text))
    ensures body.StringBody? ==> (r.Ok? <==> parse(body.text).Parsed?)
    ensures body.BitArrayBody? ==> r == Error(UnsupportedBodyType(Unsupported("JSON", "BitArrayBody")))
    ensures body.RequestBody? && old(body.req.bodyUsed) ==> r == Error(AlreadyRead) && unchanged(body.req)
    ensures body.RequestBody? && !old(body.req.bodyUsed) ==>
      && body.req.bodyUsed == body.req.payload.Stream?
      && r == if body.req.payload.Faulty() then Error(ReadError(body.req.payload.fault.value))
              else FromParse(parse(body.req.payload.Text()))
  {
    match body
    case EmptyBody =>
      r := Error(ParseError(EmptyJsonMessage));
    case RequestBody(req) =>
      if req.bodyUsed {
        return Error(AlreadyRead);
      }
      var s := req.Json(parse);
      match s {
        case Resolved(v) => r := Ok(v);
        case Rejected(SyntaxError(m)) => r := Error(ParseError(m));
        case Rejected(OtherError(m)) => r := Error(ReadError(m));
      }
    case StringBody(text) =>
      r := FromParse(parse(text));
    case BitArrayBody(_) =>
      r := Error(UnsupportedBodyType(Unsupported("JSON", "BitArrayBody")));
  }

  /**
   * Reads of a body that is already a value touch nothing and give the same answer
   * every time, whichever of the three reads is repeated.
   */
  method ValueReadsRepeat<J>(body: Body, parse: string -> Parsed<J>)
    returns (text1: Result<string, BodyReadError>, text2: Result<string, BodyReadError>,
             bits1: Result<seq<bv8>, BodyReadError>, bits2: Result<seq<bv8>, BodyReadError>,
             json1: Result<J, BodyReadError>, json2: Result<J, BodyReadError>)
    requires !body.RequestBody?
    ensures text1 == text2 && bits1 == bits2 && json1 == json2
    ensures body.EmptyBody? ==> text1 == Ok("") && bits1 == Ok([]) && json1.Error? && json1.error.ParseError?
  {
    text1 := ReadText(body);
    bits1 := ReadBits(body);
    json1 := ReadJson(body, parse);
    text2 := ReadText(body);
    bits2 := ReadBits(body);
    json2 := ReadJson(body, parse);
  }

  /**
   * Read at most once: once any read has drained a live request that has a body, every
   * further read of any kind reports `AlreadyRead`.
   */
  method ReadAtMostOnce<J>(body: Body, first: ReadKind, parse: string -> Parsed<J>)
    returns (text: Result<string, BodyReadError>, bits: Result<seq<bv8>, BodyReadError>,
             json: Result<J, BodyReadError>)
    requires body.RequestBody? && body.req.payload.Stream? && body.Valid()
    modifies body.req
    ensures body.req.bodyUsed
    ensures text == Error(AlreadyRead) && bits == Error(AlreadyRead) && json == Error(AlreadyRead)
  {
    match first {
      case TextRead => var _ := ReadText(body);
      case BitsRead => var _ := ReadBits(body);
      case JsonRead => var _ := ReadJson(body, parse);
    }
    text := ReadText(body);
    bits := ReadBits(body);
    json := ReadJson(body, parse);
  }
}
